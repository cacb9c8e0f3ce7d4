/** The read-write lock of m5threads/pthread.c: an inner spin lock around a reader
    count and the id of the writer, with unlocked reads before each attempt. Threads
    are clients that only unlock what they hold. */
module RwLock {
  import opened Counting
  import opened Specs

  /** The flag in the unlock states says which kind the caller holds; no step tests it. */
  datatype Pc =
    | Idle
    | RdSpin | RdLock | RdTest | RdLoad | RdStore(n: int) | RdUnlock(got: bool)
    | ReadHeld
    | WrSpinWriter | WrSpinReaders | WrLock | WrTestWriter | WrTestReaders | WrSet | WrUnlock(got: bool)
    | WriteHeld
    | UnLock(write: bool) | UnTest(write: bool) | UnClear(write: bool)
    | UnLoad(write: bool) | UnStore(write: bool, n: int) | UnUnlock

  const NoWriter: int := -1

  /** ids[t] is what pthread_self returns to thread t. */
  datatype State = State(lock: Option<nat>, readers: int, writer: int, ids: seq<int>, threads: seq<Pc>)

  predicate Init(s: State) {
    && s.lock == None && s.readers == 0 && s.writer == NoWriter
    && |s.ids| == |s.threads|
    && (forall t :: 0 <= t < |s.ids| ==> s.ids[t] != NoWriter)
    && (forall t, u :: 0 <= t < u < |s.ids| ==> s.ids[t] != s.ids[u])
    && forall t :: 0 <= t < |s.threads| ==> s.threads[t] == Idle
  }

  predicate Enabled(s: State, t: nat) {
    && t < |s.threads| && |s.ids| == |s.threads|
    && (s.threads[t].RdLock? || s.threads[t].WrLock? || s.threads[t].UnLock? ==> s.lock == None)
  }

  /** The next access of thread t; an idle thread chooses what to lock. */
  function Apply(s: State, t: nat, wantWrite: bool): State
    requires Enabled(s, t)
  {
    match s.threads[t]
    case Idle => At(s, t, if wantWrite then WrSpinWriter else RdSpin)
    case RdSpin => At(s, t, if s.writer == NoWriter then RdLock else RdSpin)
    case RdLock => At(s, t, RdTest).(lock := Some(t))
    case RdTest => At(s, t, if s.writer == NoWriter then RdLoad else RdUnlock(false))
    case RdLoad => At(s, t, RdStore(s.readers))
    case RdStore(n) => At(s, t, RdUnlock(true)).(readers := n + 1)
    case RdUnlock(got) => At(s, t, if got then ReadHeld else RdSpin).(lock := None)
    case WrSpinWriter => At(s, t, if s.writer == NoWriter then WrLock else WrSpinReaders)
    case WrSpinReaders => At(s, t, if s.readers == 0 then WrLock else WrSpinWriter)
    case WrLock => At(s, t, WrTestWriter).(lock := Some(t))
    case WrTestWriter => At(s, t, if s.writer == NoWriter then WrTestReaders else WrUnlock(false))
    case WrTestReaders => At(s, t, if s.readers == 0 then WrSet else WrUnlock(false))
    case WrSet => At(s, t, WrUnlock(true)).(writer := s.ids[t])
    case WrUnlock(got) => At(s, t, if got then WriteHeld else WrSpinWriter).(lock := None)
    case ReadHeld => At(s, t, UnLock(false))
    case WriteHeld => At(s, t, UnLock(true))
    case UnLock(w) => At(s, t, UnTest(w)).(lock := Some(t))
    case UnTest(w) => At(s, t, if s.ids[t] == s.writer then UnClear(w) else UnLoad(w))
    case UnClear(w) => At(s, t, UnUnlock).(writer := NoWriter)
    case UnLoad(w) => At(s, t, UnStore(w, s.readers))
    case UnStore(w, n) => At(s, t, UnUnlock).(readers := n - 1)
    case UnUnlock => At(s, t, Idle).(lock := None)
  }

  function At(s: State, t: nat, pc: Pc): State
    requires t < |s.threads|
  {
    s.(threads := s.threads[t := pc])
  }

  predicate Run(tr: seq<State>, sched: seq<(nat, bool)>) {
    && |tr| == |sched| + 1 && Init(tr[0])
    && forall i {:trigger sched[i]} :: 0 <= i < |sched| ==>
         Enabled(tr[i], sched[i].0) && tr[i + 1] == Apply(tr[i], sched[i].0, sched[i].1)
  }

  predicate Locked(pc: Pc) {
    || pc.RdTest? || pc.RdLoad? || pc.RdStore? || pc.RdUnlock?
    || pc.WrTestWriter? || pc.WrTestReaders? || pc.WrSet? || pc.WrUnlock?
    || pc.UnTest? || pc.UnClear? || pc.UnLoad? || pc.UnStore? || pc.UnUnlock?
  }

  predicate Unlocking(pc: Pc) { pc.UnLock? || pc.UnTest? || pc.UnClear? || pc.UnLoad? || pc.UnStore? }

  /** From the update that grants the lock to the update that gives it back. */
  predicate Reads(pc: Pc) { pc == RdUnlock(true) || pc.ReadHeld? || (Unlocking(pc) && !pc.write) }
  predicate Writes(pc: Pc) { pc == WrUnlock(true) || pc.WriteHeld? || (Unlocking(pc) && pc.write) }

  function Reader(): Pc -> bool { (pc: Pc) => Reads(pc) }

  predicate LocalInv(s: State, t: nat)
    requires t < |s.threads| == |s.ids|
  {
    var pc := s.threads[t];
    && (Locked(pc) <==> s.lock == Some(t))
    && s.ids[t] != NoWriter
    && (Writes(pc) <==> s.writer == s.ids[t])
    && (pc.RdLoad? || pc.RdStore? || pc.WrTestReaders? || pc.WrSet? ==> s.writer == NoWriter)
    && (pc.RdStore? || pc.UnStore? ==> pc.n == s.readers)
    && (pc.WrSet? ==> s.readers == 0)
    && (pc.UnClear? ==> pc.write)
    && (pc.UnLoad? || pc.UnStore? ==> !pc.write)
  }

  predicate Inv(s: State) {
    && |s.ids| == |s.threads|
    && (forall t, u :: 0 <= t < u < |s.ids| ==> s.ids[t] != s.ids[u])
    && s.readers == CountIf(Reader(), s.threads)
    && (s.writer != NoWriter ==> s.readers == 0)
    && forall t :: 0 <= t < |s.threads| ==> LocalInv(s, t)
  }

  lemma InitInv(s: State)
    requires Init(s)
    ensures Inv(s)
  {
    CountNone(Reader(), s.threads);
  }

  /** A reader excludes a writer. */
  lemma ReaderMeansNoWriter(s: State, t: nat)
    requires Inv(s) && t < |s.threads| && Reads(s.threads[t])
    ensures s.writer == NoWriter
  {
    CountHas(Reader(), s.threads, t);
  }


  /** What a step of thread t can do: join or leave the readers, become or cease to be
      the writer, or nothing of the kind; and the two fields follow. */
  predicate Move(s: State, s': State, t: nat)
    requires t < |s.threads| == |s'.threads|
  {
    var p, p' := s.threads[t], s'.threads[t];
    && s'.readers + One(Reads(p)) == s.readers + One(Reads(p'))
    && (if Reads(p') == Reads(p) && Writes(p') == Writes(p) then s'.writer == s.writer
        else if Reads(p') then s'.writer == s.writer == NoWriter && !Writes(p) && !Writes(p')
        else if Reads(p) then s'.writer == s.writer && !Writes(p')
        else if Writes(p') then s.writer == NoWriter && s.readers == 0
        else s'.writer == NoWriter)
  }

  lemma StepMoves(s: State, t: nat, w: bool)
    requires Enabled(s, t) && LocalInv(s, t)
    requires Reads(s.threads[t]) ==> s.writer == NoWriter
    ensures Apply(s, t, w).threads == s.threads[t := Apply(s, t, w).threads[t]]
    ensures Move(s, Apply(s, t, w), t)
  {
  }

  lemma StepReaders(s: State, s': State, t: nat)
    requires t < |s.threads| == |s'.threads| && Move(s, s', t) && s'.threads == s.threads[t := s'.threads[t]]
    requires s.readers == CountIf(Reader(), s.threads)
    requires s.writer != NoWriter ==> s.readers == 0
    ensures s'.readers == CountIf(Reader(), s'.threads)
    ensures s'.writer != NoWriter ==> s'.readers == 0
  {
    CountUpdate(Reader(), s.threads, t, s'.threads[t]);
  }

  lemma StepOwn(s: State, t: nat, w: bool)
    requires Enabled(s, t) && LocalInv(s, t)
    requires Reads(s.threads[t]) ==> s.writer == NoWriter
    ensures LocalInv(Apply(s, t, w), t)
  {
  }

  lemma StepOther(s: State, t: nat, w: bool, u: nat)
    requires Enabled(s, t) && u < |s.threads| && u != t && LocalInv(s, t) && LocalInv(s, u)
    requires s.ids[t] != s.ids[u]
    ensures LocalInv(Apply(s, t, w), u)
  {
  }

  lemma StepInv(s: State, t: nat, w: bool)
    requires Inv(s) && Enabled(s, t)
    ensures Inv(Apply(s, t, w))
  {
    var s' := Apply(s, t, w);
    assert LocalInv(s, t);
    if Reads(s.threads[t]) { ReaderMeansNoWriter(s, t); }
    StepMoves(s, t, w);
    StepReaders(s, s', t);
    assert s'.ids == s.ids;
    forall u | 0 <= u < |s'.threads| ensures LocalInv(s', u) {
      if u == t { StepOwn(s, t, w); } else { StepOther(s, t, w, u); }
    }
  }

  lemma {:induction false} RunInv(tr: seq<State>, sched: seq<(nat, bool)>, i: nat)
    requires Run(tr, sched) && i < |tr|
    ensures Inv(tr[i]) && |tr[i].threads| == |tr[0].threads|
  {
    if i == 0 {
      InitInv(tr[0]);
    } else {
      RunInv(tr, sched, i - 1);
      StepInv(tr[i - 1], sched[i - 1].0, sched[i - 1].1);
    }
  }

  /** A client that got the lock and has not yet asked to give it back, or has asked
      but not been served. */
  predicate HoldsRead(pc: Pc) { pc.ReadHeld? || pc == UnLock(false) }
  predicate HoldsWrite(pc: Pc) { pc.WriteHeld? || pc == UnLock(true) }

  function ReadHolder(): Pc -> bool { (pc: Pc) => HoldsRead(pc) }

  /** In every reachable state of any number of clients: a write holder excludes every
      other holder; whenever the inner lock is free the reader count is exactly the
      number of read holders, and it is never negative; and an unlock in progress
      releases the kind of lock its caller holds. */
  lemma RwLockSafety(tr: seq<State>, sched: seq<(nat, bool)>, i: nat, t: nat, u: nat)
    requires Run(tr, sched) && i < |tr| && t < |tr[0].threads| && u < |tr[0].threads|
    ensures |tr[i].threads| == |tr[0].threads|
    ensures HoldsWrite(tr[i].threads[t]) && t != u ==> !HoldsWrite(tr[i].threads[u]) && !HoldsRead(tr[i].threads[u])
    ensures tr[i].readers >= 0
    ensures tr[i].lock == None ==> tr[i].readers == CountIf(ReadHolder(), tr[i].threads)
    ensures tr[i].threads[t].UnClear? ==> tr[i].threads[t].write
    ensures tr[i].threads[t].UnLoad? || tr[i].threads[t].UnStore? ==> !tr[i].threads[t].write && tr[i].readers > 0
  {
    RunInv(tr, sched, i);
    var s := tr[i];
    assert LocalInv(s, t) && LocalInv(s, u);
    if Reads(s.threads[t]) { CountHas(Reader(), s.threads, t); }
    if Reads(s.threads[u]) { ReaderMeansNoWriter(s, u); }
    if t < u { assert s.ids[t] != s.ids[u]; } else if u < t { assert s.ids[u] != s.ids[t]; }
    if s.lock == None {
      forall v | 0 <= v < |s.threads| ensures Reader()(s.threads[v]) == ReadHolder()(s.threads[v]) {
        assert LocalInv(s, v);
      }
      CountAgree(Reader(), ReadHolder(), s.threads);
    }
  }

  // ----- refinement of the abstract read-write lock -----

  datatype Spec = Spec(readers: set<nat>, writer: Option<nat>)

  /** Who may come and go: readers while nobody writes, a writer while nobody else is
      inside. */
  ghost predicate SpecStep(a: Spec, b: Spec, t: nat) {
    || a == b
    || (a.writer == None && t !in a.readers && b == a.(readers := a.readers + {t}))
    || (t in a.readers && b == a.(readers := a.readers - {t}))
    || (a == Spec({}, None) && b == Spec({}, Some(t)))
    || (a == Spec({}, Some(t)) && b == Spec({}, None))
  }

  ghost function Abs(s: State): (a: Spec)
    ensures a.writer.Some? ==> a.writer.value < |s.threads| && Writes(s.threads[a.writer.value])
    ensures a.writer.None? ==> forall t :: 0 <= t < |s.threads| ==> !Writes(s.threads[t])
    ensures a.readers == set t | 0 <= t < |s.threads| && Reads(s.threads[t])
  {
    Spec(set t | 0 <= t < |s.threads| && Reads(s.threads[t]),
         if t :| 0 <= t < |s.threads| && Writes(s.threads[t]) then Some(t) else None)
  }

  lemma AbsWriter(s: State, t: nat)
    requires Inv(s) && t < |s.threads| && Writes(s.threads[t])
    ensures Abs(s) == Spec({}, Some(t))
  {
    assert LocalInv(s, t);
    forall u | 0 <= u < |s.threads| ensures !Reads(s.threads[u]) {
      if Reads(s.threads[u]) { ReaderMeansNoWriter(s, u); }
    }
    var w := Abs(s).writer.value;
    assert LocalInv(s, w);
    assert w == t;
  }

  lemma AbsNobody(s: State)
    requires Inv(s) && s.writer == NoWriter
    ensures Abs(s).writer == None
  {
    forall t | 0 <= t < |s.threads| ensures !Writes(s.threads[t]) {
      assert LocalInv(s, t);
    }
  }

  /** Every step of thread t is invisible or one t is allowed to make. */
  lemma Refines(s: State, t: nat, w: bool)
    requires Inv(s) && Enabled(s, t)
    ensures SpecStep(Abs(s), Abs(Apply(s, t, w)), t)
  {
    var s' := Apply(s, t, w);
    assert LocalInv(s, t);
    if Reads(s.threads[t]) { ReaderMeansNoWriter(s, t); }
    StepMoves(s, t, w);
    StepInv(s, t, w);
    AbsFollows(s, s', t);
  }

  lemma AbsFollows(s: State, s': State, t: nat)
    requires Inv(s) && Inv(s') && t < |s.threads| == |s'.threads|
    requires Move(s, s', t) && s'.threads == s.threads[t := s'.threads[t]]
    ensures SpecStep(Abs(s), Abs(s'), t)
  {
    var a, b, p, p' := Abs(s), Abs(s'), s.threads[t], s'.threads[t];
    if Reads(p) { ReaderMeansNoWriter(s, t); }
    if s.writer == NoWriter { AbsNobody(s); }
    if s'.writer == NoWriter { AbsNobody(s'); }
    assert b.readers == if Reads(p') then a.readers + {t} else a.readers - {t};
    if Writes(p') { AbsWriter(s', t); }
    if Writes(p) { AbsWriter(s, t); }
    if !Writes(p) && !Writes(p') {
      if a.writer.Some? { AbsWriter(s', a.writer.value); }
      if b.writer.Some? { AbsWriter(s, b.writer.value); }
    }
  }

  /** Every run, seen by its clients, is a run of the readers-writer specification. */
  lemma RunRefines(tr: seq<State>, sched: seq<(nat, bool)>, i: nat)
    requires Run(tr, sched) && i < |sched|
    ensures Abs(tr[0]) == Spec({}, None)
    ensures SpecStep(Abs(tr[i]), Abs(tr[i + 1]), sched[i].0)
  {
    assert forall t :: 0 <= t < |tr[0].threads| ==> !Reads(tr[0].threads[t]) && !Writes(tr[0].threads[t]);
    RunInv(tr, sched, i);
    Refines(tr[i], sched[i].0, sched[i].1);
  }

  // ----- a call nobody disturbs -----

  /** n steps of thread t alone. */
  function Alone(s: State, t: nat, w: bool, n: nat): State
    decreases n
  {
    if n == 0 || !Enabled(s, t) then s else Alone(Apply(s, t, w), t, w, n - 1)
  }

  predicate ReadCall(pc: Pc, w: bool) {
    (pc.Idle? && !w) || pc.RdSpin? || pc.RdLock? || pc.RdTest? || pc.RdLoad? || pc.RdStore? || pc.RdUnlock?
  }

  predicate WriteCall(pc: Pc, w: bool) {
    || (pc.Idle? && w) || pc.WrSpinWriter? || pc.WrSpinReaders? || pc.WrLock?
    || pc.WrTestWriter? || pc.WrTestReaders? || pc.WrSet? || pc.WrUnlock?
  }

  /** Nobody else holds the inner lock, and nobody is inside whom the call must wait for. */
  predicate Passable(s: State, t: nat, w: bool)
    requires t < |s.threads|
  {
    var pc := s.threads[t];
    && (s.lock == None || s.lock == Some(t))
    && (ReadCall(pc, w) ==> Reads(pc) || s.writer == NoWriter)
    && (WriteCall(pc, w) ==> Writes(pc) || (s.writer == NoWriter && s.readers == 0))
  }

  function Rank(pc: Pc): nat {
    match pc
    case Idle => 11
    case RdUnlock(got) => if got then 1 else 10
    case WrUnlock(got) => if got then 1 else 10
    case RdSpin => 9 case WrSpinWriter => 9 case WrSpinReaders => 9
    case RdLock => 8 case WrLock => 8
    case RdTest => 7 case WrTestWriter => 7
    case RdLoad => 6 case WrTestReaders => 6
    case RdStore(_) => 5 case WrSet => 5
    case ReadHeld => 6 case WriteHeld => 6
    case UnLock(_) => 5
    case UnTest(_) => 4
    case UnLoad(_) => 3
    case UnClear(_) => 2 case UnStore(_, _) => 2
    case UnUnlock => 1
  }

  /** Where the call ends. */
  function Goal(pc: Pc, w: bool): Pc {
    if ReadCall(pc, w) then ReadHeld else if WriteCall(pc, w) then WriteHeld else Idle
  }

  /** The step can be made, and either ends the call or leads to a state as good as s and
      nearer to the end. */
  predicate LoneMove(s: State, t: nat, w: bool)
    requires t < |s.threads|
  {
    && Enabled(s, t)
    && var s' := Apply(s, t, w);
       && s'.threads == s.threads[t := s'.threads[t]]
       && (|| s'.threads[t] == Goal(s.threads[t], w)
           || (&& Rank(s'.threads[t]) < Rank(s.threads[t]) && Goal(s'.threads[t], w) == Goal(s.threads[t], w)
               && Passable(s', t, w)))
  }

  lemma LoneRead(s: State, t: nat, w: bool)
    requires t < |s.threads| == |s.ids| && LocalInv(s, t) && Passable(s, t, w) && ReadCall(s.threads[t], w)
    ensures LoneMove(s, t, w)
  {
  }

  lemma LoneWrite(s: State, t: nat, w: bool)
    requires t < |s.threads| == |s.ids| && LocalInv(s, t) && Passable(s, t, w) && WriteCall(s.threads[t], w)
    ensures LoneMove(s, t, w)
  {
  }

  lemma LoneUnlock(s: State, t: nat, w: bool)
    requires t < |s.threads| == |s.ids| && LocalInv(s, t) && Passable(s, t, w)
    requires !ReadCall(s.threads[t], w) && !WriteCall(s.threads[t], w)
    ensures LoneMove(s, t, w)
  {
  }

  lemma LoneStep(s: State, t: nat, w: bool)
    requires Inv(s) && t < |s.threads| && Passable(s, t, w)
    ensures LoneMove(s, t, w) && Inv(Apply(s, t, w))
  {
    assert LocalInv(s, t);
    if ReadCall(s.threads[t], w) { LoneRead(s, t, w); }
    else if WriteCall(s.threads[t], w) { LoneWrite(s, t, w); }
    else { LoneUnlock(s, t, w); }
    StepInv(s, t, w);
  }

  /** A call that nobody disturbs returns, from whatever point it has reached: a read
      lock once no writer is inside and a write lock once nobody is, an unlock always; its
      caller then holds exactly what it asked for, and no other thread has moved. */
  lemma {:induction false} LoneCallReturns(s: State, t: nat, w: bool) returns (n: nat)
    requires Inv(s) && t < |s.threads| && Passable(s, t, w)
    ensures 0 < n <= 1 + Rank(s.threads[t])
    ensures Alone(s, t, w, n).threads == s.threads[t := Goal(s.threads[t], w)]
    decreases Rank(s.threads[t])
  {
    LoneStep(s, t, w);
    var s' := Apply(s, t, w);
    if s'.threads[t] == Goal(s.threads[t], w) {
      n := 1;
    } else {
      var k := LoneCallReturns(s', t, w);
      n := k + 1;
    }
    AloneFirst(s, t, w, n);
  }

  lemma AloneFirst(s: State, t: nat, w: bool, n: nat)
    requires n > 0 && Enabled(s, t)
    ensures Alone(s, t, w, n) == Alone(Apply(s, t, w), t, w, n - 1)
    ensures Alone(s, t, w, 0) == s
  {
  }
}
