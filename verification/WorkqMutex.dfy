/** The workq_mutex application: one manager and any number of workers, over the
    channel, sleep/wake, lock and barrier specifications.

    Worker index w stands for thread and PE number w + 1; the manager is barrier
    participant 0 and worker w is participant w + 1. Actor 0 is the manager and
    actor w + 1 is worker w. */
module WorkqMutex {
  import opened Counting
  import opened Specs

  /** The words sent through a work queue. */
  datatype Msg = Steps(n: nat) | SharedVar | LockVar | CountVar | Go

  datatype WorkerPc =
    | Unborn
    | SleepEnter | SleepReturn | WakeNext
    | PopArg
    | PopGo(i: nat)
    | LoadVar(i: nat, j: nat) | StoreVar(i: nat, j: nat, loaded: int)
    | TakeLock(i: nat) | LoadCount(i: nat) | StoreCount(i: nat, read: int) | DropLock(i: nat)
    | EnterBarrier(i: nat) | LeaveBarrier(i: nat)
    | Exit | Finished

  datatype Worker = Worker(pc: WorkerPc, args: seq<Msg>)

  datatype ManagerPc =
    | InitVar(w: nat) | Create(w: nat)
    | WakeFirst
    | PushArg(w: nat, k: nat)
    | PushGo(i: nat, w: nat)
    | EnterBar(i: nat) | LeaveBar(i: nat)
    | Join(w: nat)
    | Verify | Done(passed: bool)

  /** NUM_WORKER, ITER, nsteps and WQ_DEPTH. */
  datatype Config = Config(workers: nat, iters: nat, steps: nat, depth: nat)

  datatype State = State(
    cfg: Config, mgr: ManagerPc, workers: seq<Worker>,
    queues: seq<Channel<Msg>>, sleepers: seq<Sleeper>,
    lock: Lock, count: int, shared: seq<int>, bar: Barrier)

  /** After __init, __barrier_init, __mutex_init and the clearing of wrkr_count; the
      scratchpad holds anything. */
  predicate Init(s: State) {
    var n := s.cfg.workers;
    && n >= 1 && s.cfg.depth >= 1
    && s.mgr == InitVar(0)
    && |s.workers| == |s.queues| == |s.sleepers| == |s.shared| == n
    && (forall w :: 0 <= w < n ==>
          && s.workers[w] == Worker(Unborn, [])
          && s.queues[w] == Channel(s.cfg.depth, [])
          && s.sleepers[w] == Sleeper(0))
    && s.lock == Free && s.count == 0 && s.bar == NewBarrier(n + 1)
  }

  // ----- the manager -----

  /** The k-th word pushed to every worker. */
  function Word(cfg: Config, k: nat): Msg {
    if k == 0 then Steps(cfg.steps) else if k == 1 then SharedVar else if k == 2 then LockVar
    else if k == 3 then CountVar else Go
  }

  function NextIteration(cfg: Config, i: nat): ManagerPc {
    if i < cfg.iters then PushGo(i, 0) else Join(0)
  }

  predicate ManagerEnabled(s: State) {
    match s.mgr
    case InitVar(w) => w < |s.shared|
    case Create(w) => w < |s.workers|
    case WakeFirst => 0 < |s.sleepers|
    case PushArg(w, _) => w < |s.queues| && s.queues[w].CanPush()
    case PushGo(_, w) => w < |s.queues| && s.queues[w].CanPush()
    case EnterBar(_) => s.bar.CanEnter(0)
    case LeaveBar(_) => s.bar.CanLeave(0)
    case Join(w) => w < |s.workers| && s.workers[w].pc == Finished
    case Verify => true
    case Done(_) => false
  }

  /** What the final check of main expects. */
  function ExpectedCount(cfg: Config): nat { cfg.workers * cfg.iters }
  function ExpectedVar(cfg: Config, w: nat): nat { (w + 1) + (w + 1) * cfg.steps * cfg.iters }

  predicate Passes(s: State) {
    && s.count == ExpectedCount(s.cfg)
    && forall w :: 0 <= w < |s.shared| ==> s.shared[w] == ExpectedVar(s.cfg, w)
  }

  function ManagerStep(s: State): State
    requires ManagerEnabled(s)
  {
    var n := s.cfg.workers;
    match s.mgr
    case InitVar(w) => s.(shared := s.shared[w := w + 1], mgr := Create(w))
    case Create(w) =>
      s.(workers := s.workers[w := s.workers[w].(pc := SleepEnter)],
         mgr := if w + 1 < n then InitVar(w + 1) else WakeFirst)
    case WakeFirst => s.(sleepers := s.sleepers[0 := s.sleepers[0].Wake()], mgr := PushArg(0, 0))
    case PushArg(w, k) =>
      s.(queues := s.queues[w := s.queues[w].Push(Word(s.cfg, k))],
         mgr := if k + 1 < 4 then PushArg(w, k + 1)
                else if w + 1 < n then PushArg(w + 1, 0) else NextIteration(s.cfg, 0))
    case PushGo(i, w) =>
      s.(queues := s.queues[w := s.queues[w].Push(Go)],
         mgr := if w + 1 < n then PushGo(i, w + 1) else EnterBar(i))
    case EnterBar(i) => s.(bar := s.bar.Enter(0), mgr := LeaveBar(i))
    case LeaveBar(i) => s.(bar := s.bar.Leave(0), mgr := NextIteration(s.cfg, i + 1))
    case Join(w) => s.(mgr := if w + 1 < n then Join(w + 1) else Verify)
    case Verify => s.(mgr := Done(Passes(s)))
  }

  // ----- a worker -----

  predicate GoodArgs(args: seq<Msg>) {
    |args| == 4 && args[0].Steps? && args[1] == SharedVar && args[2] == LockVar && args[3] == CountVar
  }

  function NextStep(args: seq<Msg>, i: nat, j: nat): WorkerPc
    requires GoodArgs(args)
  {
    if j < args[0].n then LoadVar(i, j) else TakeLock(i)
  }

  function NextRound(cfg: Config, i: nat): WorkerPc {
    if i < cfg.iters then PopGo(i) else Exit
  }

  /** Everything after the four pops uses what was popped; a worker whose words are
      not the expected kinds has no defined next step. */
  predicate WorkerEnabled(s: State, w: nat) {
    && w < |s.workers| && w < |s.queues| && w < |s.sleepers| && w < |s.shared|
    && var wk := s.workers[w];
       match wk.pc
       case Unborn => false
       case SleepEnter => true
       case SleepReturn => s.sleepers[w].CanReturn()
       case WakeNext => w + 1 != s.cfg.workers ==> w + 1 < |s.sleepers|
       case PopArg => s.queues[w].CanPop()
       case PopGo(_) => GoodArgs(wk.args) && s.queues[w].CanPop()
       case TakeLock(_) => GoodArgs(wk.args) && s.lock == Free
       case EnterBarrier(_) => s.bar.CanEnter(w + 1)
       case LeaveBarrier(_) => s.bar.CanLeave(w + 1)
       case Exit => true
       case Finished => false
       case _ => GoodArgs(wk.args)
  }

  function WorkerStep(s: State, w: nat): State
    requires WorkerEnabled(s, w)
  {
    var wk := s.workers[w];
    match wk.pc
    case SleepEnter => At(s, w, SleepReturn).(sleepers := s.sleepers[w := s.sleepers[w].Arrive()])
    case SleepReturn => At(s, w, WakeNext)
    case WakeNext =>
      if w + 1 != s.cfg.workers
      then At(s, w, PopArg).(sleepers := s.sleepers[w + 1 := s.sleepers[w + 1].Wake()])
      else At(s, w, PopArg)
    case PopArg =>
      var args := wk.args + [s.queues[w].Head()];
      s.(queues := s.queues[w := s.queues[w].Pop()],
         workers := s.workers[w := Worker(if |args| < 4 then PopArg else NextRound(s.cfg, 0), args)])
    case PopGo(i) => At(s, w, NextStep(wk.args, i, 0)).(queues := s.queues[w := s.queues[w].Pop()])
    case LoadVar(i, j) => At(s, w, StoreVar(i, j, s.shared[w]))
    case StoreVar(i, j, v) =>
      At(s, w, NextStep(wk.args, i, j + 1)).(shared := s.shared[w := v + (w + 1)])
    case TakeLock(i) => At(s, w, LoadCount(i)).(lock := HeldBy(w))
    case LoadCount(i) => At(s, w, StoreCount(i, s.count))
    case StoreCount(i, v) => At(s, w, DropLock(i)).(count := v + 1)
    case DropLock(i) => At(s, w, EnterBarrier(i)).(lock := Free)
    case EnterBarrier(i) => At(s, w, LeaveBarrier(i)).(bar := s.bar.Enter(w + 1))
    case LeaveBarrier(i) => At(s, w, NextRound(s.cfg, i + 1)).(bar := s.bar.Leave(w + 1))
    case Exit => At(s, w, Finished)
  }

  function At(s: State, w: nat, pc: WorkerPc): State
    requires w < |s.workers|
  {
    s.(workers := s.workers[w := s.workers[w].(pc := pc)])
  }

  predicate Enabled(s: State, actor: nat) {
    if actor == 0 then ManagerEnabled(s) else WorkerEnabled(s, actor - 1)
  }

  function Apply(s: State, actor: nat): State
    requires Enabled(s, actor)
  {
    if actor == 0 then ManagerStep(s) else WorkerStep(s, actor - 1)
  }

  predicate Run(tr: seq<State>, sched: seq<nat>) {
    && |tr| == |sched| + 1 && Init(tr[0])
    && forall i {:trigger sched[i]} :: 0 <= i < |sched| ==> Enabled(tr[i], sched[i]) && tr[i + 1] == Apply(tr[i], sched[i])
  }

  // ----- what the program counters have done so far -----

  predicate Slept(pc: WorkerPc) { !pc.Unborn? && !pc.SleepEnter? }
  predicate Woken(pc: WorkerPc) { Slept(pc) && !pc.SleepReturn? }
  predicate PassedOn(pc: WorkerPc) { Woken(pc) && !pc.WakeNext? }
  predicate Looping(pc: WorkerPc) { PassedOn(pc) && !pc.PopArg? && !pc.Exit? && !pc.Finished? }
  predicate Holding(pc: WorkerPc) { pc.LoadCount? || pc.StoreCount? || pc.DropLock? }

  /** Iterations whose barrier wait is finished. */
  function Rounds(cfg: Config, pc: WorkerPc): nat {
    if Looping(pc) then pc.i else if pc.Exit? || pc.Finished? then cfg.iters else 0
  }
  function Gos(cfg: Config, pc: WorkerPc): nat {
    Rounds(cfg, pc) + if Looping(pc) && !pc.PopGo? then 1 else 0
  }
  function BarrierEntries(cfg: Config, pc: WorkerPc): nat {
    Rounds(cfg, pc) + if pc.LeaveBarrier? then 1 else 0
  }
  function CountStores(cfg: Config): Worker -> nat {
    (wk: Worker) => CountStored(cfg, wk.pc)
  }
  function CountStored(cfg: Config, pc: WorkerPc): nat {
    Rounds(cfg, pc) + if pc.DropLock? || pc.EnterBarrier? || pc.LeaveBarrier? then 1 else 0
  }
  /** Steps of the inner loop done in the current iteration. */
  function InnerStores(cfg: Config, pc: WorkerPc): nat {
    if pc.LoadVar? || pc.StoreVar? then pc.j
    else if Looping(pc) && !pc.PopGo? then cfg.steps else 0
  }
  function VarStores(cfg: Config, pc: WorkerPc): nat {
    Times(cfg.steps, Rounds(cfg, pc)) + InnerStores(cfg, pc)
  }

  predicate Spawning(m: ManagerPc) { m.InitVar? || m.Create? }
  predicate Created(m: ManagerPc, w: nat) { Spawning(m) ==> w < m.w }
  predicate Initialised(m: ManagerPc, w: nat) { if m.Create? then w <= m.w else Created(m, w) }
  predicate WokeFirst(m: ManagerPc) { !Spawning(m) && !m.WakeFirst? }
  function ManagerRounds(cfg: Config, m: ManagerPc): nat {
    if m.PushGo? || m.EnterBar? || m.LeaveBar? then m.i
    else if m.Join? || m.Verify? || m.Done? then cfg.iters else 0
  }
  function ManagerEntries(cfg: Config, m: ManagerPc): nat {
    ManagerRounds(cfg, m) + if m.LeaveBar? then 1 else 0
  }
  function Pushed(cfg: Config, m: ManagerPc, w: nat): nat {
    if !WokeFirst(m) then 0
    else if m.PushArg? then (if w < m.w then 4 else if w == m.w then m.k else 0)
    else 4 + ManagerRounds(cfg, m) + if m.EnterBar? || m.LeaveBar? || (m.PushGo? && w < m.w) then 1 else 0
  }

  function Wakes(s: State, w: nat): nat
    requires w <= |s.workers|
  {
    if (if w == 0 then WokeFirst(s.mgr) else PassedOn(s.workers[w - 1].pc)) then 1 else 0
  }

  /** Words number from..to of the stream every worker is sent. */
  function Words(cfg: Config, from: nat, to: nat): (r: seq<Msg>)
    requires from <= to
    ensures |r| == to - from
    ensures forall k :: 0 <= k < |r| ==> r[k] == Word(cfg, from + k)
  {
    seq(to - from, k requires 0 <= k => Word(cfg, from + k))
  }

  // ----- the invariant -----

  predicate Sizes(s: State) {
    var n := s.cfg.workers;
    && n >= 1 && s.cfg.depth >= 1
    && |s.workers| == |s.queues| == |s.sleepers| == |s.shared| == n
    && |s.bar.entered| == |s.bar.left| == n + 1
  }

  predicate ManagerInv(s: State)
    requires Sizes(s)
  {
    var n := s.cfg.workers;
    && (match s.mgr
        case InitVar(w) => w < n
        case Create(w) => w < n
        case PushArg(w, k) => w < n && k < 4
        case PushGo(i, w) => w < n && i < s.cfg.iters
        case EnterBar(i) => i < s.cfg.iters
        case LeaveBar(i) => i < s.cfg.iters
        case Join(w) => w < n && forall v :: 0 <= v < w ==> s.workers[v].pc == Finished
        case Verify => forall v :: 0 <= v < n ==> s.workers[v].pc == Finished
        case Done(passed) => passed && forall v :: 0 <= v < n ==> s.workers[v].pc == Finished
        case WakeFirst => true)
    && s.bar.entered[0] == ManagerEntries(s.cfg, s.mgr)
    && s.bar.left[0] == ManagerRounds(s.cfg, s.mgr)
  }

  predicate PcInv(cfg: Config, wk: Worker) {
    && |wk.args| <= 4 && wk.args == Words(cfg, 0, |wk.args|)
    && (if !PassedOn(wk.pc) then wk.args == []
        else if wk.pc.PopArg? then |wk.args| < 4 else |wk.args| == 4)
    && (Looping(wk.pc) ==> wk.pc.i < cfg.iters)
    && (wk.pc.LoadVar? || wk.pc.StoreVar? ==> wk.pc.j < cfg.steps)
  }

  /** The private cell of worker w counts the steps it has done. */
  predicate VarInv(cfg: Config, mgr: ManagerPc, w: nat, pc: WorkerPc, cell: int) {
    && (Initialised(mgr, w) ==> cell == Times(w + 1, 1 + VarStores(cfg, pc)))
    && (pc.StoreVar? ==> pc.loaded == cell)
  }

  /** The sleep counter is the sleep begun minus the wake received. */
  predicate SleepInv(pc: WorkerPc, wakes: nat, counter: int) {
    && counter == (if Slept(pc) then 1 else 0) - wakes
    && (Woken(pc) ==> wakes == 1)
  }

  /** The queue holds the words pushed and not yet popped, in order. */
  predicate QueueInv(cfg: Config, wk: Worker, pushed: nat, queue: Channel<Msg>) {
    var popped := |wk.args| + Gos(cfg, wk.pc);
    popped <= pushed && queue == Channel(cfg.depth, Words(cfg, popped, pushed))
  }

  predicate LockInv(w: nat, pc: WorkerPc, lock: Lock, count: int) {
    && (Holding(pc) <==> lock == HeldBy(w))
    && (pc.StoreCount? ==> pc.read == count)
  }

  predicate WorkerInv(s: State, w: nat)
    requires Sizes(s) && w < s.cfg.workers
  {
    var wk := s.workers[w];
    && PcInv(s.cfg, wk)
    && (wk.pc.Unborn? <==> !Created(s.mgr, w))
    && VarInv(s.cfg, s.mgr, w, wk.pc, s.shared[w])
    && SleepInv(wk.pc, Wakes(s, w), s.sleepers[w].counter)
    && QueueInv(s.cfg, wk, Pushed(s.cfg, s.mgr, w), s.queues[w])
    && LockInv(w, wk.pc, s.lock, s.count)
    && s.bar.entered[w + 1] == BarrierEntries(s.cfg, wk.pc)
    && s.bar.left[w + 1] == Rounds(s.cfg, wk.pc)
  }

  predicate Inv(s: State) {
    && Sizes(s) && ManagerInv(s) && s.bar.Safe()
    && (s.lock.HeldBy? ==> s.lock.owner < s.cfg.workers)
    && s.count == Sum(CountStores(s.cfg), s.workers)
    && forall w :: 0 <= w < s.cfg.workers ==> WorkerInv(s, w)
  }

  lemma InitInv(s: State)
    requires Init(s)
    ensures Inv(s)
  {
    SumConst(CountStores(s.cfg), s.workers, 0);
    forall w | 0 <= w < s.cfg.workers ensures WorkerInv(s, w) {
      assert s.workers[w] == Worker(Unborn, []);
      assert s.queues[w] == Channel(s.cfg.depth, []) && s.sleepers[w] == Sleeper(0);
      assert Words(s.cfg, 0, 0) == [];
    }
  }

  // ----- the manager's steps keep it -----

  /** With every worker finished the memory is what the final check expects. */
  lemma FinishedPasses(s: State)
    requires Inv(s) && !Spawning(s.mgr)
    requires forall w :: 0 <= w < s.cfg.workers ==> s.workers[w].pc == Finished
    ensures Passes(s)
  {
    SumConst(CountStores(s.cfg), s.workers, s.cfg.iters);
    forall w | 0 <= w < s.cfg.workers ensures s.shared[w] == ExpectedVar(s.cfg, w) {
      assert WorkerInv(s, w);
      TimesIsProduct(w + 1, 1 + VarStores(s.cfg, Finished));
      TimesIsProduct(s.cfg.steps, s.cfg.iters);
      Regroup(w + 1, s.cfg.steps, s.cfg.iters);
    }
  }

  lemma Regroup(a: nat, b: nat, c: nat)
    ensures a * (1 + b * c) == a + a * b * c
  {
  }

  lemma PushExtends(cfg: Config, wk: Worker, pushed: nat, queue: Channel<Msg>)
    requires QueueInv(cfg, wk, pushed, queue) && queue.CanPush()
    ensures QueueInv(cfg, wk, pushed + 1, queue.Push(Word(cfg, pushed)))
  {
    var popped := |wk.args| + Gos(cfg, wk.pc);
    assert Words(cfg, popped, pushed + 1) == Words(cfg, popped, pushed) + [Word(cfg, pushed)];
  }

  lemma PopShortens(cfg: Config, wk: Worker, wk': Worker, pushed: nat, queue: Channel<Msg>)
    requires QueueInv(cfg, wk, pushed, queue) && queue.CanPop()
    requires |wk'.args| + Gos(cfg, wk'.pc) == |wk.args| + Gos(cfg, wk.pc) + 1
    ensures QueueInv(cfg, wk', pushed, queue.Pop())
    ensures queue.Head() == Word(cfg, |wk.args| + Gos(cfg, wk.pc))
  {
    var popped := |wk.args| + Gos(cfg, wk.pc);
    assert Words(cfg, popped, pushed)[1..] == Words(cfg, popped + 1, pushed);
  }

  lemma ManagerKeepsQueue(s: State, w: nat)
    requires Sizes(s) && ManagerInv(s) && ManagerEnabled(s) && w < s.cfg.workers && PcInv(s.cfg, s.workers[w])
    requires s.mgr.Create? ==> s.workers[s.mgr.w].pc.Unborn?
    requires QueueInv(s.cfg, s.workers[w], Pushed(s.cfg, s.mgr, w), s.queues[w])
    requires Sizes(ManagerStep(s))
    ensures QueueInv(s.cfg, ManagerStep(s).workers[w], Pushed(s.cfg, ManagerStep(s).mgr, w), ManagerStep(s).queues[w])
  {
    if s.mgr.PushArg? || s.mgr.PushGo? {
      if s.mgr.w == w {
        PushExtends(s.cfg, s.workers[w], Pushed(s.cfg, s.mgr, w), s.queues[w]);
      }
    } else {
      assert Pushed(s.cfg, ManagerStep(s).mgr, w) == Pushed(s.cfg, s.mgr, w);
    }
  }

  lemma ManagerKeepsWorkers(s: State, w: nat)
    requires Sizes(s) && ManagerInv(s) && ManagerEnabled(s) && w < s.cfg.workers && WorkerInv(s, w)
    requires s.mgr.Create? ==> s.workers[s.mgr.w].pc.Unborn?
    requires Sizes(ManagerStep(s))
    ensures WorkerInv(ManagerStep(s), w)
  {
    ManagerKeepsQueue(s, w);
    ManagerKeepsSleep(s, w);
    ManagerKeepsVar(s, w);
  }

  lemma ManagerKeepsSleep(s: State, w: nat)
    requires Sizes(s) && ManagerInv(s) && ManagerEnabled(s) && w < s.cfg.workers && Sizes(ManagerStep(s))
    requires s.mgr.Create? ==> s.workers[s.mgr.w].pc.Unborn?
    requires SleepInv(s.workers[w].pc, Wakes(s, w), s.sleepers[w].counter)
    ensures SleepInv(ManagerStep(s).workers[w].pc, Wakes(ManagerStep(s), w), ManagerStep(s).sleepers[w].counter)
  {
  }

  lemma ManagerKeepsVar(s: State, w: nat)
    requires Sizes(s) && ManagerInv(s) && ManagerEnabled(s) && w < s.cfg.workers && Sizes(ManagerStep(s))
    requires s.mgr.Create? ==> s.workers[s.mgr.w].pc.Unborn?
    requires VarInv(s.cfg, s.mgr, w, s.workers[w].pc, s.shared[w])
    requires s.workers[w].pc.Unborn? <==> !Created(s.mgr, w)
    ensures VarInv(s.cfg, ManagerStep(s).mgr, w, ManagerStep(s).workers[w].pc, ManagerStep(s).shared[w])
  {
  }

  lemma ManagerKeepsItself(s: State)
    requires Sizes(s) && ManagerInv(s) && ManagerEnabled(s)
    requires s.mgr.Create? ==> s.workers[s.mgr.w].pc.Unborn?
    requires s.mgr.Verify? ==> Passes(s)
    ensures Sizes(ManagerStep(s)) && ManagerInv(ManagerStep(s))
  {
  }

  lemma ManagerKeepsCount(s: State)
    requires Sizes(s) && ManagerInv(s) && ManagerEnabled(s)
    requires s.mgr.Create? ==> s.workers[s.mgr.w].pc.Unborn?
    ensures ManagerStep(s).count == s.count && ManagerStep(s).lock == s.lock && ManagerStep(s).cfg == s.cfg
    ensures Sum(CountStores(s.cfg), ManagerStep(s).workers) == Sum(CountStores(s.cfg), s.workers)
  {
    if s.mgr.Create? {
      SumUpdate(CountStores(s.cfg), s.workers, s.mgr.w, ManagerStep(s).workers[s.mgr.w]);
    }
  }

  lemma ManagerStepInv(s: State)
    requires Inv(s) && ManagerEnabled(s)
    ensures Inv(ManagerStep(s))
  {
    if s.mgr.Create? { assert WorkerInv(s, s.mgr.w); }
    if s.mgr.Verify? { FinishedPasses(s); }
    ManagerKeepsItself(s);
    ManagerKeepsCount(s);
    BarrierStaysSafe(s.bar, 0);
    forall w | 0 <= w < s.cfg.workers ensures WorkerInv(ManagerStep(s), w) {
      ManagerKeepsWorkers(s, w);
    }
  }

  // ----- a worker's steps keep it -----

  lemma OwnPc(s: State, w: nat)
    requires Sizes(s) && WorkerEnabled(s, w) && PcInv(s.cfg, s.workers[w])
    requires s.workers[w].pc.PopArg? ==> s.queues[w].Head() == Word(s.cfg, |s.workers[w].args|)
    ensures PcInv(s.cfg, WorkerStep(s, w).workers[w])
  {
  }

  lemma OwnVar(s: State, w: nat)
    requires Sizes(s) && WorkerEnabled(s, w) && PcInv(s.cfg, s.workers[w])
    requires VarInv(s.cfg, s.mgr, w, s.workers[w].pc, s.shared[w])
    ensures VarInv(s.cfg, s.mgr, w, WorkerStep(s, w).workers[w].pc, WorkerStep(s, w).shared[w])
  {
  }

  lemma OwnQueue(s: State, w: nat)
    requires Sizes(s) && WorkerEnabled(s, w) && PcInv(s.cfg, s.workers[w])
    requires QueueInv(s.cfg, s.workers[w], Pushed(s.cfg, s.mgr, w), s.queues[w])
    ensures QueueInv(s.cfg, WorkerStep(s, w).workers[w], Pushed(s.cfg, s.mgr, w), WorkerStep(s, w).queues[w])
    ensures s.workers[w].pc.PopArg? ==> s.queues[w].Head() == Word(s.cfg, |s.workers[w].args|)
  {
    var s' := WorkerStep(s, w);
    if s.workers[w].pc.PopArg? || s.workers[w].pc.PopGo? {
      PopShortens(s.cfg, s.workers[w], s'.workers[w], Pushed(s.cfg, s.mgr, w), s.queues[w]);
    } else {
      SameGos(s, w);
    }
  }

  /** Only a pop takes a word. */
  lemma SameGos(s: State, w: nat)
    requires Sizes(s) && WorkerEnabled(s, w) && PcInv(s.cfg, s.workers[w])
    requires !s.workers[w].pc.PopArg? && !s.workers[w].pc.PopGo?
    ensures Gos(s.cfg, WorkerStep(s, w).workers[w].pc) == Gos(s.cfg, s.workers[w].pc)
    ensures WorkerStep(s, w).workers[w].args == s.workers[w].args && WorkerStep(s, w).queues[w] == s.queues[w]
  {
  }

  /** What a step of worker w leaves alone in what belongs to the others ... */
  predicate CellFrame(s: State, s': State, w: nat)
    requires Sizes(s) && Sizes(s') && w < s.cfg.workers == s'.cfg.workers
  {
    && s'.cfg == s.cfg && s'.mgr == s.mgr
    && !s.workers[w].pc.Unborn? && !s'.workers[w].pc.Unborn? && !s.workers[w].pc.Finished?
    && (forall v :: 0 <= v < s.cfg.workers && v != w ==>
          s'.workers[v] == s.workers[v] && s'.queues[v] == s.queues[v] && s'.shared[v] == s.shared[v])
    && (forall t :: 0 <= t <= s.cfg.workers && t != w + 1 ==>
          s'.bar.entered[t] == s.bar.entered[t] && s'.bar.left[t] == s.bar.left[t])
  }

  /** ... and what it may hand on: one wake-up to the next worker, and the lock. */
  predicate SyncFrame(s: State, s': State, w: nat)
    requires Sizes(s) && Sizes(s') && w < s.cfg.workers == s'.cfg.workers
  {
    && (PassedOn(s.workers[w].pc) ==> PassedOn(s'.workers[w].pc))
    && (forall v :: 0 <= v < s.cfg.workers && v != w ==>
          s'.sleepers[v].counter == s.sleepers[v].counter
            - if v == w + 1 && PassedOn(s'.workers[w].pc) && !PassedOn(s.workers[w].pc) then 1 else 0)
    && (s'.lock == s.lock || (s.lock == Free && s'.lock == HeldBy(w)) || (s.lock == HeldBy(w) && s'.lock == Free))
    && (s'.count == s.count || s.lock == HeldBy(w))
  }

  predicate WorkerFrame(s: State, s': State, w: nat)
    requires Sizes(s) && Sizes(s') && w < s.cfg.workers == s'.cfg.workers
  {
    CellFrame(s, s', w) && SyncFrame(s, s', w)
  }

  lemma StepCellFrame(s: State, w: nat)
    requires Sizes(s) && WorkerEnabled(s, w)
    ensures Sizes(WorkerStep(s, w)) && CellFrame(s, WorkerStep(s, w), w)
  {
  }

  lemma StepSyncFrame(s: State, w: nat)
    requires Sizes(s) && WorkerEnabled(s, w) && PcInv(s.cfg, s.workers[w]) && Sizes(WorkerStep(s, w))
    requires LockInv(w, s.workers[w].pc, s.lock, s.count)
    ensures SyncFrame(s, WorkerStep(s, w), w)
  {
  }

  lemma OwnSync(s: State, w: nat)
    requires Sizes(s) && WorkerEnabled(s, w) && PcInv(s.cfg, s.workers[w]) && Sizes(WorkerStep(s, w))
    requires LockInv(w, s.workers[w].pc, s.lock, s.count)
    requires SleepInv(s.workers[w].pc, Wakes(s, w), s.sleepers[w].counter)
    ensures LockInv(w, WorkerStep(s, w).workers[w].pc, WorkerStep(s, w).lock, WorkerStep(s, w).count)
    ensures SleepInv(WorkerStep(s, w).workers[w].pc, Wakes(s, w), WorkerStep(s, w).sleepers[w].counter)
  {
  }

  lemma OwnBarrier(s: State, w: nat)
    requires Sizes(s) && WorkerEnabled(s, w) && PcInv(s.cfg, s.workers[w]) && Sizes(WorkerStep(s, w))
    requires s.bar.entered[w + 1] == BarrierEntries(s.cfg, s.workers[w].pc)
    requires s.bar.left[w + 1] == Rounds(s.cfg, s.workers[w].pc)
    ensures WorkerStep(s, w).bar.entered[w + 1] == BarrierEntries(s.cfg, WorkerStep(s, w).workers[w].pc)
    ensures WorkerStep(s, w).bar.left[w + 1] == Rounds(s.cfg, WorkerStep(s, w).workers[w].pc)
  {
  }

  lemma OwnIncrement(s: State, w: nat)
    requires Sizes(s) && WorkerEnabled(s, w) && PcInv(s.cfg, s.workers[w])
    requires LockInv(w, s.workers[w].pc, s.lock, s.count)
    ensures WorkerStep(s, w).count - s.count
         == CountStores(s.cfg)(WorkerStep(s, w).workers[w]) - CountStores(s.cfg)(s.workers[w])
  {
    if !s.workers[w].pc.StoreCount? { NoIncrement(s, w); }
  }

  lemma NoIncrement(s: State, w: nat)
    requires Sizes(s) && WorkerEnabled(s, w) && PcInv(s.cfg, s.workers[w]) && !s.workers[w].pc.StoreCount?
    ensures WorkerStep(s, w).count == s.count
    ensures CountStored(s.cfg, WorkerStep(s, w).workers[w].pc) == CountStored(s.cfg, s.workers[w].pc)
  {
  }

  lemma OwnWorker(s: State, w: nat)
    requires WorkerEnabled(s, w)
    ensures WorkerStep(s, w).workers == s.workers[w := WorkerStep(s, w).workers[w]]
  {
  }

  lemma OwnCount(s: State, w: nat)
    requires Sizes(s) && WorkerEnabled(s, w) && PcInv(s.cfg, s.workers[w])
    requires LockInv(w, s.workers[w].pc, s.lock, s.count)
    requires s.count == Sum(CountStores(s.cfg), s.workers)
    ensures WorkerStep(s, w).count == Sum(CountStores(s.cfg), WorkerStep(s, w).workers)
  {
    OwnIncrement(s, w);
    OwnWorker(s, w);
    SumUpdate(CountStores(s.cfg), s.workers, w, WorkerStep(s, w).workers[w]);
  }

  lemma WorkerKeepsOthers(s: State, s': State, w: nat, v: nat)
    requires Sizes(s) && Sizes(s') && w < s.cfg.workers == s'.cfg.workers && WorkerFrame(s, s', w)
    requires v < s.cfg.workers && v != w && WorkerInv(s, v)
    ensures WorkerInv(s', v)
  {
    assert Wakes(s', v) == Wakes(s, v) + s.sleepers[v].counter - s'.sleepers[v].counter;
  }

  lemma WorkerKeepsManager(s: State, s': State, w: nat)
    requires Sizes(s) && Sizes(s') && w < s.cfg.workers == s'.cfg.workers && WorkerFrame(s, s', w)
    requires ManagerInv(s)
    ensures ManagerInv(s')
  {
  }

  lemma WorkerKeepsItself(s: State, s': State, w: nat)
    requires Sizes(s) && WorkerEnabled(s, w) && WorkerInv(s, w)
    requires s' == WorkerStep(s, w) && Sizes(s') && WorkerFrame(s, s', w)
    ensures WorkerInv(s', w)
  {
    OwnVar(s, w);
    OwnQueue(s, w);
    OwnPc(s, w);
    OwnSync(s, w);
    OwnBarrier(s, w);
  }

  lemma WorkerStepInv(s: State, w: nat)
    requires Inv(s) && WorkerEnabled(s, w)
    ensures Inv(WorkerStep(s, w))
  {
    var s' := WorkerStep(s, w);
    assert WorkerInv(s, w);
    StepCellFrame(s, w);
    StepSyncFrame(s, w);
    OwnCount(s, w);
    BarrierStaysSafe(s.bar, w + 1);
    WorkerKeepsManager(s, s', w);
    forall v | 0 <= v < s.cfg.workers ensures WorkerInv(s', v) {
      if v == w { WorkerKeepsItself(s, s', w); } else { WorkerKeepsOthers(s, s', w, v); }
    }
  }

  lemma {:induction false} RunInv(tr: seq<State>, sched: seq<nat>, i: nat)
    requires Run(tr, sched) && i < |tr|
    ensures Inv(tr[i]) && tr[i].cfg == tr[0].cfg
  {
    if i == 0 {
      InitInv(tr[0]);
    } else {
      RunInv(tr, sched, i - 1);
      if sched[i - 1] == 0 { ManagerStepInv(tr[i - 1]); } else { WorkerStepInv(tr[i - 1], sched[i - 1] - 1); }
    }
  }

  // ----- no deadlock -----

  /** A sleeper's wake-up is always on its way down the chain of workers. */
  lemma {:induction false} SleepChain(s: State, w: nat) returns (actor: nat)
    requires Inv(s) && w < s.cfg.workers && WokeFirst(s.mgr)
    requires !Woken(s.workers[w].pc)
    ensures Enabled(s, actor)
  {
    assert WorkerInv(s, w);
    if s.workers[w].pc.SleepEnter? || Wakes(s, w) == 1 {
      actor := w + 1;
    } else {
      assert WorkerInv(s, w - 1);
      if s.workers[w - 1].pc.WakeNext? {
        actor := w;
      } else {
        actor := SleepChain(s, w - 1);
      }
    }
  }

  /** A started worker whose next pop has something to pop, and whose next barrier
      exit is allowed, can move or is about to be woken. */
  lemma WorkerMoves(s: State, w: nat) returns (actor: nat)
    requires Inv(s) && w < s.cfg.workers && WokeFirst(s.mgr) && s.lock == Free
    requires s.workers[w].pc != Finished
    requires s.workers[w].pc.PopArg? || s.workers[w].pc.PopGo? ==>
               |s.workers[w].args| + Gos(s.cfg, s.workers[w].pc) < Pushed(s.cfg, s.mgr, w)
    requires s.workers[w].pc.LeaveBarrier? ==>
               forall u :: 0 <= u < |s.bar.entered| ==> s.bar.entered[w + 1] <= s.bar.entered[u]
    ensures Enabled(s, actor)
  {
    assert WorkerInv(s, w);
    if Woken(s.workers[w].pc) {
      actor := w + 1;
    } else {
      actor := SleepChain(s, w);
    }
  }

  lemma {:induction false} FewestEntries(entered: seq<nat>, n: nat) returns (w: nat)
    requires n >= 1 && |entered| == n + 1
    ensures w < n && forall u :: 1 <= u <= n ==> entered[w + 1] <= entered[u]
  {
    if n == 1 {
      w := 0;
    } else {
      w := FewestEntries(entered[..n], n - 1);
      assert forall u :: 1 <= u < n ==> entered[..n][u] == entered[u];
      if entered[n] < entered[w + 1] { w := n - 1; }
    }
  }

  lemma BlockedPush(s: State) returns (actor: nat)
    requires Inv(s) && s.lock == Free && (s.mgr.PushArg? || s.mgr.PushGo?) && !ManagerEnabled(s)
    ensures Enabled(s, actor)
  {
    var w := s.mgr.w;
    assert WorkerInv(s, w);
    assert s.bar.left[0] == ManagerRounds(s.cfg, s.mgr);
    actor := WorkerMoves(s, w);
  }

  lemma BlockedBarrier(s: State) returns (actor: nat)
    requires Inv(s) && s.lock == Free && s.mgr.LeaveBar? && !ManagerEnabled(s)
    ensures Enabled(s, actor)
  {
    var w := FewestEntries(s.bar.entered, s.cfg.workers);
    assert WorkerInv(s, w);
    var u :| 0 <= u < |s.bar.entered| && s.bar.entered[u] < s.bar.entered[0];
    assert s.bar.entered[w + 1] <= s.bar.entered[u] < s.bar.entered[0];
    actor := WorkerMoves(s, w);
  }

  lemma BlockedJoin(s: State) returns (actor: nat)
    requires Inv(s) && s.lock == Free && s.mgr.Join? && !ManagerEnabled(s)
    ensures Enabled(s, actor)
  {
    var w := s.mgr.w;
    assert WorkerInv(s, w);
    assert s.bar.left[0] <= s.bar.entered[w + 1];
    actor := WorkerMoves(s, w);
  }

  /** In every reachable unfinished state some thread can take a step that is not a
      wait: workq_mutex cannot deadlock. */
  lemma NoDeadlock(s: State) returns (actor: nat)
    requires Inv(s) && !s.mgr.Done?
    ensures Enabled(s, actor)
  {
    if s.lock.HeldBy? {
      actor := s.lock.owner + 1;
      assert WorkerInv(s, s.lock.owner);
    } else if ManagerEnabled(s) {
      actor := 0;
    } else {
      match s.mgr
      case PushArg(_, _) => actor := BlockedPush(s);
      case PushGo(_, _) => actor := BlockedPush(s);
      case LeaveBar(_) => actor := BlockedBarrier(s);
      case Join(_) => actor := BlockedJoin(s);
    }
  }

  // ----- termination -----

  function Minus(a: nat, b: nat): nat { if a > b then a - b else 0 }

  /** Iterations a worker has not begun, and its steps left before the next of them. */
  function RoundsLeft(cfg: Config, pc: WorkerPc): nat {
    if Looping(pc) then Minus(cfg.iters, pc.i + 1) else if pc.Exit? || pc.Finished? then 0 else cfg.iters
  }

  function StepsLeft(cfg: Config, wk: Worker): nat {
    match wk.pc
    case Unborn => 9
    case SleepEnter => 8
    case SleepReturn => 7
    case WakeNext => 6
    case PopArg => 1 + Minus(4, |wk.args|)
    case PopGo(_) => 2 * cfg.steps + 8
    case LoadVar(_, j) => 7 + 2 * Minus(cfg.steps, j)
    case StoreVar(_, j, _) => 8 + 2 * Minus(cfg.steps, j + 1)
    case TakeLock(_) => 7
    case LoadCount(_) => 6
    case StoreCount(_, _) => 5
    case DropLock(_) => 4
    case EnterBarrier(_) => 3
    case LeaveBarrier(_) => 2
    case Exit => 1
    case Finished => 0
  }

  function WorkerWork(cfg: Config): Worker -> nat {
    (wk: Worker) => Times(2 * cfg.steps + 7, RoundsLeft(cfg, wk.pc)) + StepsLeft(cfg, wk)
  }

  function ManagerRoundsLeft(cfg: Config, m: ManagerPc): nat {
    if m.PushGo? || m.EnterBar? || m.LeaveBar? then Minus(cfg.iters, m.i + 1)
    else if m.Join? || m.Verify? || m.Done? then 0 else cfg.iters
  }

  function ManagerStepsLeft(cfg: Config, m: ManagerPc): nat {
    var n := cfg.workers;
    match m
    case InitVar(w) => 2 * Minus(n, w) + 5 * n + 2
    case Create(w) => 2 * Minus(n, w + 1) + 5 * n + 3
    case WakeFirst => 5 * n + 2
    case PushArg(w, k) => 4 * Minus(n, w + 1) + Minus(4, k) + n + 1
    case PushGo(_, w) => Minus(n, w) + n + 3
    case EnterBar(_) => n + 3
    case LeaveBar(_) => n + 2
    case Join(w) => Minus(n, w) + 1
    case Verify => 1
    case Done(_) => 0
  }

  function Work(s: State): nat {
    Times(s.cfg.workers + 2, ManagerRoundsLeft(s.cfg, s.mgr)) + ManagerStepsLeft(s.cfg, s.mgr)
      + Sum(WorkerWork(s.cfg), s.workers)
  }

  lemma WorkerCountdown(s: State, w: nat)
    requires Sizes(s) && WorkerEnabled(s, w) && PcInv(s.cfg, s.workers[w])
    ensures
      var wk, wk' := s.workers[w], WorkerStep(s, w).workers[w];
      || (RoundsLeft(s.cfg, wk'.pc) == RoundsLeft(s.cfg, wk.pc) && StepsLeft(s.cfg, wk') < StepsLeft(s.cfg, wk))
      || (RoundsLeft(s.cfg, wk'.pc) + 1 == RoundsLeft(s.cfg, wk.pc)
          && StepsLeft(s.cfg, wk') < StepsLeft(s.cfg, wk) + 2 * s.cfg.steps + 7)
  {
  }

  lemma ManagerCountdown(s: State)
    requires Sizes(s) && ManagerInv(s) && ManagerEnabled(s)
    ensures
      var m, m' := s.mgr, ManagerStep(s).mgr;
      || (ManagerRoundsLeft(s.cfg, m') == ManagerRoundsLeft(s.cfg, m)
          && ManagerStepsLeft(s.cfg, m') < ManagerStepsLeft(s.cfg, m))
      || (ManagerRoundsLeft(s.cfg, m') + 1 == ManagerRoundsLeft(s.cfg, m)
          && ManagerStepsLeft(s.cfg, m') < ManagerStepsLeft(s.cfg, m) + s.cfg.workers + 2)
  {
  }

  lemma WorkerWorks(s: State, s': State, w: nat)
    requires Sizes(s) && w < s.cfg.workers && s'.cfg == s.cfg && s'.mgr == s.mgr
    requires |s'.workers| == |s.workers| && s'.workers == s.workers[w := s'.workers[w]]
    requires WorkerWork(s.cfg)(s'.workers[w]) < WorkerWork(s.cfg)(s.workers[w])
    ensures Work(s') < Work(s)
  {
    SumUpdate(WorkerWork(s.cfg), s.workers, w, s'.workers[w]);
  }

  lemma ManagerWorks(s: State)
    requires Sizes(s) && ManagerInv(s) && ManagerEnabled(s)
    requires s.mgr.Create? ==> s.workers[s.mgr.w].pc.Unborn?
    ensures Work(ManagerStep(s)) < Work(s)
  {
    ManagerCountdown(s);
    if s.mgr.Create? {
      SumUpdate(WorkerWork(s.cfg), s.workers, s.mgr.w, ManagerStep(s).workers[s.mgr.w]);
    }
  }

  /** Every step, of any thread, uses up a finite stock of work. */
  lemma WorkDecreases(s: State, actor: nat)
    requires Inv(s) && Enabled(s, actor)
    ensures Work(Apply(s, actor)) < Work(s)
  {
    if actor == 0 {
      if s.mgr.Create? { assert WorkerInv(s, s.mgr.w); }
      ManagerWorks(s);
    } else {
      assert WorkerInv(s, actor - 1);
      WorkerDecreases(s, actor - 1);
    }
  }

  lemma WorkerDecreases(s: State, w: nat)
    requires Sizes(s) && WorkerEnabled(s, w) && PcInv(s.cfg, s.workers[w])
    ensures Work(WorkerStep(s, w)) < Work(s)
  {
    OwnWorker(s, w);
    OwnWork(s, w);
    WorkerWorks(s, WorkerStep(s, w), w);
  }

  lemma OwnWork(s: State, w: nat)
    requires Sizes(s) && WorkerEnabled(s, w) && PcInv(s.cfg, s.workers[w])
    ensures WorkerWork(s.cfg)(WorkerStep(s, w).workers[w]) < WorkerWork(s.cfg)(s.workers[w])
    ensures WorkerStep(s, w).cfg == s.cfg && WorkerStep(s, w).mgr == s.mgr
  {
    WorkerCountdown(s, w);
  }

  lemma RunLength(tr: seq<State>, sched: seq<nat>, i: nat)
    requires Run(tr, sched) && i < |tr|
    ensures i + Work(tr[i]) <= Work(tr[0])
  {
    var work := seq(|tr|, k requires 0 <= k < |tr| => Work(tr[k]));
    forall k | 0 < k < |work| ensures Falls(work, k) { WorkNext(tr, sched, k); }
    Countdown(work, i);
  }

  lemma WorkNext(tr: seq<State>, sched: seq<nat>, i: nat)
    requires Run(tr, sched) && 0 < i < |tr|
    ensures Work(tr[i]) < Work(tr[i - 1])
  {
    RunInv(tr, sched, i - 1);
    WorkDecreases(tr[i - 1], sched[i - 1]);
  }

  /** The check of main passes on exactly the expected values, whatever state it meets. */
  lemma CheckIsExact(s: State)
    requires s.mgr == Verify
    ensures ManagerStep(s).mgr ==
            Done(&& s.count == s.cfg.workers * s.cfg.iters
                 && forall w :: 0 <= w < |s.shared| ==> s.shared[w] == (w + 1) + (w + 1) * s.cfg.steps * s.cfg.iters)
  {
    assert Passes(s) <==>
           && s.count == s.cfg.workers * s.cfg.iters
           && forall w :: 0 <= w < |s.shared| ==> s.shared[w] == (w + 1) + (w + 1) * s.cfg.steps * s.cfg.iters;
  }

  /** Every complete interleaving, for any number of workers, iterations and steps and
      any queue depth from one: it is finite, it stops only when the manager has joined
      every worker and run its check, and then wrkr_count is NUM_WORKER * ITER, cell t
      is (t + 1) + (t + 1) * nsteps * ITER, and the check has passed. */
  lemma EveryRunPasses(tr: seq<State>, sched: seq<nat>)
    requires Run(tr, sched)
    ensures |sched| <= Work(tr[0])
    ensures (forall actor: nat :: !Enabled(tr[|sched|], actor)) <==> tr[|sched|].mgr.Done?
    ensures tr[|sched|].mgr.Done? ==>
              && tr[|sched|].mgr.passed
              && tr[|sched|].count == tr[0].cfg.workers * tr[0].cfg.iters
              && |tr[|sched|].shared| == tr[0].cfg.workers
              && forall w :: 0 <= w < tr[0].cfg.workers ==>
                   tr[|sched|].shared[w] == (w + 1) + (w + 1) * tr[0].cfg.steps * tr[0].cfg.iters
  {
    var s := tr[|sched|];
    RunLength(tr, sched, |sched|);
    RunInv(tr, sched, |sched|);
    if s.mgr.Done? {
      FinishedPasses(s);
      forall actor: nat ensures !Enabled(s, actor) { }
    } else {
      var actor := NoDeadlock(s);
    }
  }
}
