/** The work queue of emu/src/util.cpp: a bounded queue behind one mutex and two
    condition variables, used by any number of pushing and popping threads.

    Waiting on a condition variable releases the mutex and falls asleep in one step;
    a sleeper is woken by notify_one or for no reason, and must take the mutex again. */
module WorkQueue {
  import opened Counting
  import opened Specs

  datatype Pc =
    | Idle
    | PushLock(v: nat) | PushTest(v: nat) | PushSleep(v: nat) | PushNotified(v: nat)
    | PushDo(v: nat) | PushNotify | PushUnlock
    | PopLock | PopTest | PopSleep | PopNotified
    | PopDo | PopNotify(r: nat) | PopUnlock(r: nat)

  /** `pushed` and `popped` record the whole history; no step tests them. */
  datatype State = State(
    capacity: nat, mutex: Option<nat>, q: seq<nat>, threads: seq<Pc>,
    pushed: seq<nat>, popped: seq<nat>)

  datatype Event =
    | CallPush(t: nat, v: nat)
    | CallPop(t: nat)
    | Step(t: nat, woken: nat)  // woken: whom a notify_one picks
    | Spurious(t: nat)

  predicate Init(s: State) {
    && s.mutex == None && s.q == s.pushed == s.popped == []
    && forall t :: 0 <= t < |s.threads| ==> s.threads[t] == Idle
  }

  predicate WantsMutex(pc: Pc) { pc.PushLock? || pc.PushNotified? || pc.PopLock? || pc.PopNotified? }

  function Sleeping(pop: bool): Pc -> bool {
    (pc: Pc) => if pop then pc.PopSleep? else pc.PushSleep?
  }

  function SleepCount(s: State, pop: bool): nat { CountIf(Sleeping(pop), s.threads) }

  /** A notify_one wakes some sleeper of its condition variable if there is one. */
  predicate CanNotify(s: State, pop: bool, woken: nat) {
    SleepCount(s, pop) > 0 ==> woken < |s.threads| && Sleeping(pop)(s.threads[woken])
  }

  predicate Enabled(s: State, e: Event) {
    && e.t < |s.threads|
    && var pc := s.threads[e.t];
       match e
       case CallPush(_, _) => pc.Idle?
       case CallPop(_) => pc.Idle?
       case Spurious(_) => pc.PushSleep? || pc.PopSleep?
       case Step(_, woken) =>
         && !pc.Idle? && !pc.PushSleep? && !pc.PopSleep?
         && (WantsMutex(pc) ==> s.mutex == None)
         && (pc.PopDo? ==> s.q != [])
         && (pc.PushNotify? ==> CanNotify(s, true, woken))
         && (pc.PopNotify? ==> CanNotify(s, false, woken))
  }

  function Wake(pc: Pc): Pc {
    if pc.PushSleep? then PushNotified(pc.v) else if pc.PopSleep? then PopNotified else pc
  }

  function Notify(s: State, pop: bool, woken: nat): seq<Pc>
    requires CanNotify(s, pop, woken)
  {
    if SleepCount(s, pop) > 0 then s.threads[woken := Wake(s.threads[woken])] else s.threads
  }

  function Apply(s: State, e: Event): State
    requires Enabled(s, e)
  {
    var t := e.t;
    match e
    case CallPush(_, v) => s.(threads := s.threads[t := PushLock(v)])
    case CallPop(_) => s.(threads := s.threads[t := PopLock])
    case Spurious(_) => s.(threads := s.threads[t := Wake(s.threads[t])])
    case Step(_, woken) =>
      match s.threads[t]
      case PushLock(v) => s.(mutex := Some(t), threads := s.threads[t := PushTest(v)])
      case PushNotified(v) => s.(mutex := Some(t), threads := s.threads[t := PushTest(v)])
      case PushTest(v) =>
        if |s.q| == s.capacity then s.(mutex := None, threads := s.threads[t := PushSleep(v)])
        else s.(threads := s.threads[t := PushDo(v)])
      case PushDo(v) =>
        s.(q := s.q + [v], pushed := s.pushed + [v], threads := s.threads[t := PushNotify])
      case PushNotify => s.(threads := Notify(s, true, woken)[t := PushUnlock])
      case PushUnlock => s.(mutex := None, threads := s.threads[t := Idle])
      case PopLock => s.(mutex := Some(t), threads := s.threads[t := PopTest])
      case PopNotified => s.(mutex := Some(t), threads := s.threads[t := PopTest])
      case PopTest =>
        if |s.q| == 0 then s.(mutex := None, threads := s.threads[t := PopSleep])
        else s.(threads := s.threads[t := PopDo])
      case PopDo =>
        s.(q := s.q[1..], popped := s.popped + [s.q[0]], threads := s.threads[t := PopNotify(s.q[0])])
      case PopNotify(r) => s.(threads := Notify(s, false, woken)[t := PopUnlock(r)])
      case PopUnlock(r) => s.(mutex := None, threads := s.threads[t := Idle])
  }

  predicate Run(tr: seq<State>, events: seq<Event>) {
    && |tr| == |events| + 1 && Init(tr[0])
    && forall i {:trigger events[i]} :: 0 <= i < |events| ==>
         Enabled(tr[i], events[i]) && tr[i + 1] == Apply(tr[i], events[i])
  }

  predicate Holds(pc: Pc) {
    || pc.PushTest? || pc.PushDo? || pc.PushNotify? || pc.PushUnlock?
    || pc.PopTest? || pc.PopDo? || pc.PopNotify? || pc.PopUnlock?
  }

  /** A popper that has been told, or is about to be told, to look at the queue; and
      the same for pushers. */
  function Pending(pop: bool): Pc -> bool {
    (pc: Pc) =>
      if pop then pc.PopNotified? || pc.PopTest? || pc.PopDo? || pc.PushNotify?
      else pc.PushNotified? || pc.PushTest? || pc.PushDo? || pc.PopNotify?
  }

  function PendingCount(s: State, pop: bool): nat { CountIf(Pending(pop), s.threads) }

  /** What a sleeper of each kind is waiting for. */
  function Supply(s: State, pop: bool): int { if pop then |s.q| else s.capacity - |s.q| }

  /** No wake-up is lost: if somebody sleeps un-notified, every item (or free slot) has
      somebody awake who is going to look for it. */
  predicate NoLostWakeup(s: State, pop: bool) {
    SleepCount(s, pop) > 0 ==> Supply(s, pop) <= PendingCount(s, pop)
  }

  predicate LocalInv(s: State, t: nat)
    requires t < |s.threads|
  {
    && (Holds(s.threads[t]) <==> s.mutex == Some(t))
    && (s.threads[t].PushDo? ==> |s.q| < s.capacity)
    && (s.threads[t].PopDo? ==> |s.q| > 0)
  }

  predicate Inv(s: State) {
    && s.pushed == s.popped + s.q && |s.q| <= s.capacity
    && (s.mutex.Some? ==> s.mutex.value < |s.threads|)
    && NoLostWakeup(s, true) && NoLostWakeup(s, false)
    && forall t :: 0 <= t < |s.threads| ==> LocalInv(s, t)
  }

  lemma InitInv(s: State)
    requires Init(s)
    ensures Inv(s)
  {
    CountNone(Sleeping(true), s.threads);
    CountNone(Sleeping(false), s.threads);
  }


  /** How replacing one thread's pc moves the four counts. */
  lemma Moves(threads: seq<Pc>, t: nat, pc: Pc, pop: bool)
    requires t < |threads|
    ensures CountIf(Sleeping(pop), threads[t := pc]) + One(Sleeping(pop)(threads[t]))
         == CountIf(Sleeping(pop), threads) + One(Sleeping(pop)(pc))
    ensures CountIf(Pending(pop), threads[t := pc]) + One(Pending(pop)(threads[t]))
         == CountIf(Pending(pop), threads) + One(Pending(pop)(pc))
  {
    CountUpdate(Sleeping(pop), threads, t, pc);
    CountUpdate(Pending(pop), threads, t, pc);
  }

  predicate Notifies(s: State, e: Event)
    requires Enabled(s, e)
  {
    e.Step? && (s.threads[e.t].PushNotify? || s.threads[e.t].PopNotify?)
  }

  lemma NotifyKeepsWakeups(s: State, e: Event, pop: bool)
    requires Enabled(s, e) && Notifies(s, e) && NoLostWakeup(s, pop)
    ensures NoLostWakeup(Apply(s, e), pop)
  {
    var kind, last := s.threads[e.t].PushNotify?, Apply(s, e).threads[e.t];
    var mid := Notify(s, kind, e.woken);
    assert Apply(s, e) == s.(threads := mid[e.t := last]) && !Sleeping(pop)(last) && !Pending(pop)(last);
    Moves(mid, e.t, last, pop);
    if SleepCount(s, kind) > 0 {
      var woken := Wake(s.threads[e.woken]);
      assert !Sleeping(pop)(woken) && (Pending(pop)(woken) <==> kind == pop);
      Moves(s.threads, e.woken, woken, pop);
    }
  }

  lemma StepKeepsWakeups(s: State, e: Event, pop: bool)
    requires Enabled(s, e) && !Notifies(s, e) && LocalInv(s, e.t) && |s.q| <= s.capacity && NoLostWakeup(s, pop)
    ensures NoLostWakeup(Apply(s, e), pop)
  {
    var s' := Apply(s, e);
    Moves(s.threads, e.t, s'.threads[e.t], pop);
    assert s'.threads == s.threads[e.t := s'.threads[e.t]];
  }

  lemma StepLocal(s: State, e: Event, u: nat)
    requires Inv(s) && Enabled(s, e) && u < |s.threads|
    ensures LocalInv(Apply(s, e), u)
  {
    assert LocalInv(s, e.t) && LocalInv(s, u);
  }

  lemma StepInv(s: State, e: Event)
    requires Inv(s) && Enabled(s, e)
    ensures Inv(Apply(s, e))
  {
    var s' := Apply(s, e);
    assert LocalInv(s, e.t);
    forall pop: bool ensures NoLostWakeup(s', pop) {
      if Notifies(s, e) { NotifyKeepsWakeups(s, e, pop); } else { StepKeepsWakeups(s, e, pop); }
    }
    forall u | 0 <= u < |s'.threads| ensures LocalInv(s', u) {
      StepLocal(s, e, u);
    }
  }

  lemma {:induction false} RunInv(tr: seq<State>, events: seq<Event>, i: nat)
    requires Run(tr, events) && i < |tr|
    ensures Inv(tr[i]) && |tr[i].threads| == |tr[0].threads|
  {
    if i == 0 {
      InitInv(tr[0]);
    } else {
      RunInv(tr, events, i - 1);
      StepInv(tr[i - 1], events[i - 1]);
    }
  }

  function Notified(pop: bool): Pc -> bool {
    (pc: Pc) => if pop then pc.PopNotified? else pc.PushNotified?
  }

  /** In every reachable state: what was pushed is what was popped followed by the
      queue, so delivery is first-in first-out and nothing is lost or repeated; the
      queue never exceeds its capacity; and with the mutex free, a popper sleeping
      un-notified means there are at most as many items as notified poppers still to
      run, and likewise for pushers and free slots. */
  lemma QueueCorrect(tr: seq<State>, events: seq<Event>, i: nat, pop: bool)
    requires Run(tr, events) && i < |tr|
    ensures tr[i].pushed == tr[i].popped + tr[i].q
    ensures |tr[i].q| <= tr[i].capacity
    ensures tr[i].mutex == None && SleepCount(tr[i], pop) > 0 ==>
              Supply(tr[i], pop) <= CountIf(Notified(pop), tr[i].threads)
  {
    RunInv(tr, events, i);
    if tr[i].mutex == None {
      forall t | 0 <= t < |tr[i].threads| ensures Pending(pop)(tr[i].threads[t]) == Notified(pop)(tr[i].threads[t]) {
        assert LocalInv(tr[i], t);
      }
      CountAgree(Pending(pop), Notified(pop), tr[i].threads);
    }
  }

  // ----- refinement -----

  function Abs(s: State): Channel<nat> { Channel(s.capacity, s.q) }

  /** Every step is invisible, or pushes the caller's word onto a queue with room, or
      takes the oldest word of a non-empty queue and returns it to the caller. */
  lemma Refines(s: State, e: Event)
    requires Inv(s) && Enabled(s, e)
    ensures
      var a, b, pc := Abs(s), Abs(Apply(s, e)), s.threads[e.t];
      if e.Step? && pc.PushDo? then a.CanPush() && b == a.Push(pc.v)
      else if e.Step? && pc.PopDo? then a.CanPop() && b == a.Pop() && Apply(s, e).threads[e.t] == PopNotify(a.Head())
      else a == b
  {
    assert LocalInv(s, e.t);
  }

  /** Every run, seen by its callers, is a run of the channel specification. */
  lemma RunRefines(tr: seq<State>, events: seq<Event>, i: nat)
    requires Run(tr, events) && i < |events|
    ensures Abs(tr[0]) == Channel(tr[0].capacity, [])
    ensures ChannelStep(Abs(tr[i]), Abs(tr[i + 1]))
  {
    RunInv(tr, events, i);
    Refines(tr[i], events[i]);
    assert tr[i + 1] == Apply(tr[i], events[i]);
  }

  predicate Popping(pc: Pc) {
    pc.PopLock? || pc.PopTest? || pc.PopSleep? || pc.PopNotified? || pc.PopDo?
  }
  predicate Pushing(pc: Pc) {
    pc.PushLock? || pc.PushTest? || pc.PushSleep? || pc.PushNotified? || pc.PushDo?
  }

  /** A call the specification allows is never stuck: while a popper is inside and an
      item is there, or a pusher is inside and there is room, some thread can take a
      step that is neither a wait nor a spurious wake-up. */
  lemma NeverStuck(s: State, t: nat) returns (e: Event)
    requires Inv(s) && t < |s.threads|
    requires (Popping(s.threads[t]) && Abs(s).CanPop()) || (Pushing(s.threads[t]) && Abs(s).CanPush())
    ensures Enabled(s, e) && e.Step?
  {
    if s.mutex.Some? {
      var h := s.mutex.value;
      assert LocalInv(s, h);
      var kind := s.threads[h].PushNotify?;
      e := Step(h, 0);
      if (kind || s.threads[h].PopNotify?) && SleepCount(s, kind) > 0 {
        var w := CountWitness(Sleeping(kind), s.threads);
        e := Step(h, w);
      }
    } else {
      assert LocalInv(s, t);
      e := Step(t, 0);
      if s.threads[t].PopSleep? || s.threads[t].PushSleep? {
        var kind := s.threads[t].PopSleep?;
        CountHas(Sleeping(kind), s.threads, t);
        var u := CountWitness(Pending(kind), s.threads);
        assert LocalInv(s, u);
        e := Step(u, 0);
      }
    }
  }

  // ----- what a call is given and gives back -----

  predicate ThreadAt(tr: seq<State>, m: nat, t: nat)
    requires m < |tr|
  {
    t < |tr[m].threads|
  }

  /** At time m thread t carries v towards the queue, inside a push. */
  predicate Carries(tr: seq<State>, m: nat, t: nat, v: nat)
    requires m < |tr|
  {
    && ThreadAt(tr, m, t) && Pushing(tr[m].threads[t]) && tr[m].threads[t].v == v
  }

  /** At time m thread t has taken r and not yet returned it. */
  predicate Brings(tr: seq<State>, m: nat, t: nat, r: nat)
    requires m < |tr|
  {
    && ThreadAt(tr, m, t) && (tr[m].threads[t].PopNotify? || tr[m].threads[t].PopUnlock?) && tr[m].threads[t].r == r
  }

  /** How one event moves a thread that is pushing or returning a word. */
  lemma WordMoves(s: State, e: Event, t: nat)
    requires Enabled(s, e) && t < |s.threads|
    ensures |Apply(s, e).threads| == |s.threads|
    ensures
      var p, p' := s.threads[t], Apply(s, e).threads[t];
      && (Pushing(p') ==> (Pushing(p) && p.v == p'.v) || e == CallPush(t, p'.v))
      && (p'.PopNotify? ==> p == p' || (e.Step? && e.t == t && p.PopDo? && s.q != [] && p'.r == s.q[0]))
      && (p'.PopUnlock? ==> p == p' || (e.Step? && e.t == t && p == PopNotify(p'.r)))
  {
    if e.Step? && s.threads[e.t].PopDo? { assert s.q != []; }
  }

  /** The word a push carries is the one it was last called with. */
  lemma {:induction false} PushCarriesItsWord(tr: seq<State>, events: seq<Event>, i: nat, t: nat) returns (k: nat)
    requires Run(tr, events) && i < |tr| && ThreadAt(tr, i, t) && Pushing(tr[i].threads[t])
    ensures k < i && events[k] == CallPush(t, tr[i].threads[t].v)
    ensures forall m :: k < m <= i ==> Carries(tr, m, t, tr[i].threads[t].v)
  {
    RunInv(tr, events, i - 1);
    RunInv(tr, events, i);
    WordMoves(tr[i - 1], events[i - 1], t);
    assert tr[i] == Apply(tr[i - 1], events[i - 1]);
    if events[i - 1] == CallPush(t, tr[i].threads[t].v) {
      k := i - 1;
    } else {
      k := PushCarriesItsWord(tr, events, i - 1, t);
    }
  }

  lemma {:induction false} HistoryGrows(tr: seq<State>, events: seq<Event>, k: nat, i: nat)
    requires Run(tr, events) && k <= i < |tr|
    ensures tr[k].pushed <= tr[i].pushed && tr[k].popped <= tr[i].popped
    decreases i
  {
    if k < i {
      HistoryGrows(tr, events, k, i - 1);
      assert tr[i] == Apply(tr[i - 1], events[i - 1]);
    }
  }

  /** A pop hands back the word that was oldest when it took one: if n words had been taken
      before, the n-th word pushed in the whole run. */
  lemma PopReturnsOldest(tr: seq<State>, events: seq<Event>, i: nat, t: nat) returns (k: nat)
    requires Run(tr, events) && i < |tr| && ThreadAt(tr, i, t)
    requires tr[i].threads[t].PopNotify? || tr[i].threads[t].PopUnlock?
    ensures k < i && events[k].Step? && events[k].t == t && ThreadAt(tr, k, t) && tr[k].threads[t].PopDo?
    ensures forall m :: k < m <= i ==> Brings(tr, m, t, tr[i].threads[t].r)
    ensures tr[k].q != [] && tr[i].threads[t].r == tr[k].q[0]
    ensures |tr[k].popped| < |tr[i].popped| && tr[i].popped[|tr[k].popped|] == tr[i].threads[t].r
    ensures |tr[k].popped| < |tr[i].pushed| && tr[i].pushed[|tr[k].popped|] == tr[i].threads[t].r
  {
    k := TakenBefore(tr, events, i, t);
    assert tr[k + 1] == Apply(tr[k], events[k]);
    RunInv(tr, events, k);
    HistoryGrows(tr, events, k, i);
    HistoryGrows(tr, events, k + 1, i);
  }

  lemma {:induction false} TakenBefore(tr: seq<State>, events: seq<Event>, i: nat, t: nat) returns (k: nat)
    requires Run(tr, events) && i < |tr| && ThreadAt(tr, i, t)
    requires tr[i].threads[t].PopNotify? || tr[i].threads[t].PopUnlock?
    ensures k < i && events[k].Step? && events[k].t == t && ThreadAt(tr, k, t) && tr[k].threads[t].PopDo?
    ensures tr[k].q != [] && tr[i].threads[t].r == tr[k].q[0]
    ensures forall m :: k < m <= i ==> Brings(tr, m, t, tr[i].threads[t].r)
  {
    RunInv(tr, events, i - 1);
    RunInv(tr, events, i);
    WordMoves(tr[i - 1], events[i - 1], t);
    assert tr[i] == Apply(tr[i - 1], events[i - 1]);
    if tr[i - 1].threads[t].PopDo? {
      k := i - 1;
    } else {
      k := TakenBefore(tr, events, i - 1, t);
    }
  }

  /** The words handed to the queue and taken from it by the first i events, in order. */
  function Given(tr: seq<State>, events: seq<Event>, i: nat): seq<nat>
    requires Run(tr, events) && i <= |events|
  {
    if i == 0 then []
    else
      var pc := tr[i - 1].threads[events[i - 1].t];
      Given(tr, events, i - 1) + if events[i - 1].Step? && pc.PushDo? then [pc.v] else []
  }

  function Taken(tr: seq<State>, events: seq<Event>, i: nat): seq<nat>
    requires Run(tr, events) && i <= |events|
  {
    if i == 0 then []
    else
      var s := tr[i - 1];
      Taken(tr, events, i - 1)
      + if events[i - 1].Step? && s.threads[events[i - 1].t].PopDo? && s.q != [] then [s.q[0]] else []
  }

  /** Nothing else enters the history of the queue. */
  lemma {:induction false} HistoryIsCalls(tr: seq<State>, events: seq<Event>, i: nat)
    requires Run(tr, events) && i <= |events|
    ensures tr[i].pushed == Given(tr, events, i) && tr[i].popped == Taken(tr, events, i)
  {
    if i > 0 {
      HistoryIsCalls(tr, events, i - 1);
      HistoryStep(tr[i - 1], events[i - 1]);
      assert tr[i] == Apply(tr[i - 1], events[i - 1]);
    }
  }

  lemma HistoryStep(s: State, e: Event)
    requires Enabled(s, e)
    ensures
      var s', pc := Apply(s, e), s.threads[e.t];
      && s'.pushed == s.pushed + (if e.Step? && pc.PushDo? then [pc.v] else [])
      && s'.popped == s.popped + (if e.Step? && pc.PopDo? && s.q != [] then [s.q[0]] else [])
  {
  }

  // ----- a call nobody disturbs -----

  /** The steps es of thread t alone lead from s to s'. */
  ghost predicate Solo(s: State, es: seq<Event>, t: nat, s': State)
    decreases |es|
  {
    if es == [] then s' == s
    else es[0].Step? && es[0].t == t && Enabled(s, es[0]) && Solo(Apply(s, es[0]), es[1..], t, s')
  }

  /** Thread t is awake inside a call, nobody else holds the mutex, and the queue has what
      the call needs. */
  predicate Unhindered(s: State, t: nat)
    requires t < |s.threads|
  {
    var pc := s.threads[t];
    && !pc.Idle? && !pc.PushSleep? && !pc.PopSleep? && (s.mutex == None || s.mutex == Some(t))
    && (Pushing(pc) ==> |s.q| < s.capacity) && (Popping(pc) ==> |s.q| > 0)
  }

  function Rank(pc: Pc): nat {
    if WantsMutex(pc) then 5
    else if pc.PushTest? || pc.PopTest? then 4
    else if pc.PushDo? || pc.PopDo? then 3
    else if pc.PushNotify? || pc.PopNotify? then 2
    else 1
  }

  /** The queue once the call has done its part. */
  function Left(pc: Pc, q: seq<nat>): seq<nat> {
    if Pushing(pc) then q + [pc.v] else if Popping(pc) && q != [] then q[1..] else q
  }

  predicate Nearer(s: State, s': State, t: nat)
    requires t < |s.threads| == |s'.threads|
  {
    && Left(s'.threads[t], s'.q) == Left(s.threads[t], s.q)
    && (s'.threads[t].Idle? || (Unhindered(s', t) && Rank(s'.threads[t]) < Rank(s.threads[t])))
  }

  lemma LoneNotify(s: State, t: nat) returns (e: Event)
    requires t < |s.threads| && Unhindered(s, t) && (s.threads[t].PushNotify? || s.threads[t].PopNotify?)
    ensures e.Step? && e.t == t && Enabled(s, e) && Nearer(s, Apply(s, e), t)
  {
    var pop := s.threads[t].PushNotify?;
    e := Step(t, 0);
    if SleepCount(s, pop) > 0 {
      var w := CountWitness(Sleeping(pop), s.threads);
      e := Step(t, w);
    }
  }

  lemma LoneAccess(s: State, t: nat)
    requires t < |s.threads| && Unhindered(s, t) && LocalInv(s, t)
    requires !s.threads[t].PushNotify? && !s.threads[t].PopNotify?
    ensures Enabled(s, Step(t, 0)) && Nearer(s, Apply(s, Step(t, 0)), t)
  {
  }

  lemma LoneStep(s: State, t: nat) returns (e: Event)
    requires Inv(s) && t < |s.threads| && Unhindered(s, t)
    ensures e.Step? && e.t == t && Enabled(s, e) && Nearer(s, Apply(s, e), t)
  {
    assert LocalInv(s, t);
    if s.threads[t].PushNotify? || s.threads[t].PopNotify? {
      e := LoneNotify(s, t);
    } else {
      LoneAccess(s, t);
      e := Step(t, 0);
    }
  }

  /** A call that nobody disturbs returns, from whatever point it has reached awake: a push
      once there is room, having appended exactly its word; a pop once there is an item,
      having taken exactly the oldest. */
  lemma {:induction false} LoneCallReturns(s: State, t: nat) returns (es: seq<Event>, s': State)
    requires Inv(s) && t < |s.threads| && Unhindered(s, t)
    ensures Solo(s, es, t, s') && |s'.threads| == |s.threads| && s'.threads[t].Idle?
    ensures Pushing(s.threads[t]) ==> s'.q == s.q + [s.threads[t].v]
    ensures Popping(s.threads[t]) ==> s'.q == s.q[1..]
    ensures !Pushing(s.threads[t]) && !Popping(s.threads[t]) ==> s'.q == s.q
    decreases Rank(s.threads[t])
  {
    var e := LoneStep(s, t);
    var s1 := Apply(s, e);
    if s1.threads[t].Idle? {
      es, s' := [e], s1;
    } else {
      StepInv(s, e);
      var rest;
      rest, s' := LoneCallReturns(s1, t);
      es := [e] + rest;
    }
    assert Solo(s1, es[1..], t, s');
  }
}
