/** The sleep/wake counter of one processing element in emu/src/util.cpp: the PE's own
    thread sleeps, any number of other threads wake it, each under the PE's mutex. */
module SleepWake {
  import opened Specs

  datatype SleeperPc =
    | Awake | SleepLock | SleepLoad | SleepStore(n: int) | SleepTest | Asleep | Notified | SleepUnlock

  datatype WakerPc = Idle | WakeLock | WakeLoad | WakeStore(n: int) | WakeNotify | WakeUnlock

  datatype Holder = Nobody | TheSleeper | Waker(w: nat)

  /** `sleeps`, `returned` and `wakes` count the increments, the finished sleeps and the
      decrements so far; no step tests them. */
  datatype State = State(
    counter: int, mutex: Holder, sleeper: SleeperPc, wakers: seq<WakerPc>,
    sleeps: nat, returned: nat, wakes: nat)

  datatype Event = SleeperStep | WakerStep(w: nat) | Spurious

  predicate Init(s: State) {
    && s.counter == 0 && s.mutex == Nobody && s.sleeper == Awake
    && s.sleeps == s.returned == s.wakes == 0
    && forall w :: 0 <= w < |s.wakers| ==> s.wakers[w] == Idle
  }

  predicate Enabled(s: State, e: Event) {
    match e
    case SleeperStep => !s.sleeper.Asleep? && (s.sleeper.SleepLock? || s.sleeper.Notified? ==> s.mutex == Nobody)
    case WakerStep(w) => w < |s.wakers| && (s.wakers[w].WakeLock? ==> s.mutex == Nobody)
    case Spurious => s.sleeper.Asleep?
  }

  function Apply(s: State, e: Event): State
    requires Enabled(s, e)
  {
    match e
    case Spurious => s.(sleeper := Notified)
    case SleeperStep =>
      (match s.sleeper
       case Awake => s.(sleeper := SleepLock)
       case SleepLock => s.(mutex := TheSleeper, sleeper := SleepLoad)
       case SleepLoad => s.(sleeper := SleepStore(s.counter))
       case SleepStore(n) => s.(counter := n + 1, sleeps := s.sleeps + 1, sleeper := SleepTest)
       case SleepTest =>
         if s.counter > 0 then s.(mutex := Nobody, sleeper := Asleep) else s.(sleeper := SleepUnlock)
       case Notified => s.(mutex := TheSleeper, sleeper := SleepTest)
       case SleepUnlock => s.(mutex := Nobody, returned := s.returned + 1, sleeper := Awake))
    case WakerStep(w) =>
      (match s.wakers[w]
       case Idle => s.(wakers := s.wakers[w := WakeLock])
       case WakeLock => s.(mutex := Waker(w), wakers := s.wakers[w := WakeLoad])
       case WakeLoad => s.(wakers := s.wakers[w := WakeStore(s.counter)])
       case WakeStore(n) => s.(counter := n - 1, wakes := s.wakes + 1, wakers := s.wakers[w := WakeNotify])
       case WakeNotify =>
         s.(sleeper := if s.sleeper.Asleep? then Notified else s.sleeper, wakers := s.wakers[w := WakeUnlock])
       case WakeUnlock => s.(mutex := Nobody, wakers := s.wakers[w := Idle]))
  }

  predicate Run(tr: seq<State>, events: seq<Event>) {
    && |tr| == |events| + 1 && Init(tr[0])
    && forall i {:trigger events[i]} :: 0 <= i < |events| ==>
         Enabled(tr[i], events[i]) && tr[i + 1] == Apply(tr[i], events[i])
  }

  predicate SleeperHolds(pc: SleeperPc) {
    pc.SleepLoad? || pc.SleepStore? || pc.SleepTest? || pc.SleepUnlock?
  }

  /** The increment of the current sleep has been made. */
  predicate Counted(pc: SleeperPc) {
    pc.SleepTest? || pc.Asleep? || pc.Notified? || pc.SleepUnlock?
  }

  predicate WakerInv(s: State, w: nat)
    requires w < |s.wakers|
  {
    && (!s.wakers[w].Idle? && !s.wakers[w].WakeLock? <==> s.mutex == Waker(w))
    && (s.wakers[w].WakeStore? ==> s.wakers[w].n == s.counter)
  }

  predicate Notifying(s: State) {
    s.mutex.Waker? && s.mutex.w < |s.wakers| && s.wakers[s.mutex.w].WakeNotify?
  }

  predicate Inv(s: State) {
    && s.counter == s.sleeps - s.wakes
    && s.sleeps == s.returned + (if Counted(s.sleeper) then 1 else 0)
    && s.returned <= s.wakes
    && (s.sleeper.SleepUnlock? ==> s.counter <= 0)
    && (s.sleeper.SleepStore? ==> s.sleeper.n == s.counter)
    && (SleeperHolds(s.sleeper) <==> s.mutex == TheSleeper)
    && (s.mutex.Waker? ==> s.mutex.w < |s.wakers|)
    && (s.sleeper.Asleep? ==> s.counter == 1 || Notifying(s))
    && forall w :: 0 <= w < |s.wakers| ==> WakerInv(s, w)
  }

  lemma StepInv(s: State, e: Event)
    requires Inv(s) && Enabled(s, e)
    ensures Inv(Apply(s, e))
  {
    var s' := Apply(s, e);
    if e.WakerStep? { assert WakerInv(s, e.w); }
    if s.mutex.Waker? { assert WakerInv(s, s.mutex.w); }
    forall w | 0 <= w < |s'.wakers| ensures WakerInv(s', w) {
      assert WakerInv(s, w);
    }
  }

  lemma {:induction false} RunInv(tr: seq<State>, events: seq<Event>, i: nat)
    requires Run(tr, events) && i < |tr|
    ensures Inv(tr[i])
  {
    if i > 0 {
      RunInv(tr, events, i - 1);
      StepInv(tr[i - 1], events[i - 1]);
    }
  }

  /** In every reachable state: the counter is sleeps begun minus wakes, and at most 1;
      the k-th sleep has returned only after k wakes; early wakes stay banked in a
      negative counter; and with the mutex free, an un-notified sleeper means that
      exactly one wake is missing. */
  lemma SleepWakeCorrect(tr: seq<State>, events: seq<Event>, i: nat)
    requires Run(tr, events) && i < |tr|
    ensures tr[i].counter == tr[i].sleeps - tr[i].wakes <= 1
    ensures tr[i].returned <= tr[i].wakes && tr[i].returned <= tr[i].sleeps <= tr[i].returned + 1
    ensures tr[i].sleeper.Asleep? && tr[i].mutex == Nobody ==> tr[i].counter == 1
  {
    RunInv(tr, events, i);
  }

  /** Each step is invisible to the specification, or begins a sleep, or delivers a
      wake; and a sleep is let go only when the specification allows it to return. */
  lemma Refines(s: State, e: Event)
    requires Inv(s) && Enabled(s, e)
    ensures
      var a, b := Sleeper(s.counter), Sleeper(Apply(s, e).counter);
      && (if e.SleeperStep? && s.sleeper.SleepStore? then b == a.Arrive()
          else if e.WakerStep? && s.wakers[e.w].WakeStore? then b == a.Wake()
          else b == a)
      && (Apply(s, e).sleeper.SleepUnlock? ==> b.CanReturn())
  {
    if e.WakerStep? { assert WakerInv(s, e.w); }
  }

  /** Every run, seen by its callers, is a run of the sleep/wake specification. */
  lemma RunRefines(tr: seq<State>, events: seq<Event>, i: nat)
    requires Run(tr, events) && i < |events|
    ensures Sleeper(tr[0].counter) == Sleeper(0)
    ensures Specs.SleeperStep(Sleeper(tr[i].counter), Sleeper(tr[i + 1].counter))
  {
    RunInv(tr, events, i);
    Refines(tr[i], events[i]);
    assert tr[i + 1] == Apply(tr[i], events[i]);
  }

  /** A sleep that may return is never stuck: some thread can take a step that is
      neither a wait nor a spurious wake-up. */
  lemma NeverStuck(s: State) returns (e: Event)
    requires Inv(s) && Counted(s.sleeper) && Sleeper(s.counter).CanReturn()
    ensures Enabled(s, e) && !e.Spurious?
  {
    if s.mutex.Waker? {
      assert WakerInv(s, s.mutex.w);
      e := WakerStep(s.mutex.w);
    } else {
      e := SleeperStep;
    }
  }

  // ----- a call nobody disturbs -----

  /** n times the same thread. */
  function Alone(s: State, e: Event, n: nat): State
    decreases n
  {
    if n == 0 || !Enabled(s, e) then s else Alone(Apply(s, e), e, n - 1)
  }

  /** Steps to the end of the sleep, or from outside to the end of the next one. */
  function SleeperRank(pc: SleeperPc): nat {
    match pc
    case Awake => 6 case SleepLock => 5 case SleepLoad => 4 case SleepStore(_) => 3
    case Asleep => 3 case Notified => 3 case SleepTest => 2 case SleepUnlock => 1
  }

  function WakerRank(pc: WakerPc): nat {
    match pc
    case Idle => 6 case WakeLock => 5 case WakeLoad => 4 case WakeStore(_) => 3 case WakeNotify => 2 case WakeUnlock => 1
  }

  /** A sleep that nobody disturbs returns once the specification lets it, a wake banked
      beforehand included: the sleeper needs no further wake. */
  lemma {:induction false} LoneSleepReturns(s: State)
    requires Inv(s) && !s.mutex.Waker?
    requires if Counted(s.sleeper) then s.counter <= 0 else s.counter < 0
    ensures
      var s' := Alone(s, SleeperStep, SleeperRank(s.sleeper));
      s'.sleeper == Awake && s'.returned == s.returned + 1 && s'.wakers == s.wakers
    decreases SleeperRank(s.sleeper)
  {
    StepInv(s, SleeperStep);
    if !s.sleeper.SleepUnlock? { LoneSleepReturns(Apply(s, SleeperStep)); }
  }

  /** A wake that nobody disturbs returns and takes exactly 1 off the counter; if it began
      by asking for the mutex, nobody is left asleep without a notification. */
  lemma {:induction false} LoneWakeReturns(s: State, w: nat)
    requires Inv(s) && w < |s.wakers| && (s.mutex == Nobody || s.mutex == Waker(w))
    ensures
      var s', pc := Alone(s, WakerStep(w), WakerRank(s.wakers[w])), s.wakers[w];
      && s'.wakers == s.wakers[w := Idle] && s'.mutex == Nobody
      && s'.counter == s.counter - (if pc.WakeNotify? || pc.WakeUnlock? then 0 else 1)
      && s'.sleeper == if s.sleeper.Asleep? && !pc.WakeUnlock? then Notified else s.sleeper
    decreases WakerRank(s.wakers[w])
  {
    StepInv(s, WakerStep(w));
    assert WakerInv(s, w);
    if s.wakers[w].WakeUnlock? {
      assert Alone(Apply(s, WakerStep(w)), WakerStep(w), 0) == Apply(s, WakerStep(w));
    } else {
      LoneWakeReturns(Apply(s, WakerStep(w)), w);
    }
  }
}
