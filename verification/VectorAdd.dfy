/** The vector_add application: the manager partitions 0..N-1 among the workers, sends
    each its packet and a start signal through its work queue, and meets them all at a
    barrier; over the channel and barrier specifications. Every addition of elements is
    rounded by an arbitrary function that leaves rounded numbers alone. */
module VectorAdd {
  import opened Counting
  import opened Specs

  // ----- the partition -----

  /** First and last index given to worker w: N / NUM_WORKER elements each, the rest to
      the last worker. */
  function First(n: nat, workers: nat, w: nat): int
    requires workers >= 1
  {
    w * (n / workers)
  }

  function Last(n: nat, workers: nat, w: nat): int
    requires workers >= 1
  {
    if w + 1 == workers then n - 1 else (w + 1) * (n / workers) - 1
  }

  lemma Shares(n: nat, workers: nat, w: nat)
    requires w < workers
    ensures 0 <= First(n, workers, w) <= Last(n, workers, w) + 1 <= n
    ensures w + 1 < workers ==> First(n, workers, w + 1) == Last(n, workers, w) + 1 == First(n, workers, w) + n / workers
    ensures w + 1 == workers ==> Last(n, workers, w) == n - 1
  {
    var share := n / workers;
    ShareFits(n, workers);
    MoreShares(w, workers, share);
    MoreShares(w + 1, workers, share);
    MoreShares(w, w + 1, share);
    assert (w + 1) * share == w * share + share;
  }

  lemma ShareFits(n: nat, workers: nat)
    requires workers >= 1
    ensures workers * (n / workers) <= n
  {}

  lemma MoreShares(v: nat, w: nat, share: nat)
    requires v <= w
    ensures 0 <= v * share <= w * share
  {}

  lemma {:induction false} FirstGrows(n: nat, workers: nat, w: nat, v: nat)
    requires w < v < workers
    ensures Last(n, workers, w) < First(n, workers, v)
    decreases v
  {
    Shares(n, workers, v - 1);
    if w < v - 1 { FirstGrows(n, workers, w, v - 1); }
  }

  /** The ranges are disjoint ... */
  lemma RangesDisjoint(n: nat, workers: nat, w: nat, v: nat, i: int)
    requires w < workers && v < workers
    requires First(n, workers, w) <= i <= Last(n, workers, w) && First(n, workers, v) <= i <= Last(n, workers, v)
    ensures w == v
  {
    if w < v { FirstGrows(n, workers, w, v); }
    if v < w { FirstGrows(n, workers, v, w); }
  }

  /** ... and cover every index. */
  lemma {:induction false} RangesCover(n: nat, workers: nat, top: nat, i: nat) returns (w: nat)
    requires top < workers && i <= Last(n, workers, top)
    ensures w <= top && First(n, workers, w) <= i <= Last(n, workers, w)
    decreases top
  {
    if First(n, workers, top) <= i {
      w := top;
    } else {
      Shares(n, workers, top - 1);
      w := RangesCover(n, workers, top - 1, i);
    }
  }

  // ----- the loops, run by one thread -----

  type Rounding = real -> real

  ghost predicate Settles(round: Rounding) { forall x :: round(round(x)) == round(x) }

  /** The worker's loop over its own range, in place. */
  method AddRange(round: Rounding, a: array<real>, b: array<real>, c: array<real>, first: int, last: int)
    requires a != c && b != c && a.Length == b.Length == c.Length
    requires 0 <= first <= last + 1 <= c.Length
    modifies c
    ensures forall i :: 0 <= i < c.Length ==>
              c[i] == if first <= i <= last then round(old(c[i]) + round(a[i] + b[i])) else old(c[i])
  {
    var i := first;
    while i <= last
      invariant first <= i <= last + 1
      invariant forall k :: 0 <= k < c.Length ==>
                  c[k] == if first <= k < i then round(old(c[k]) + round(a[k] + b[k])) else old(c[k])
    {
      c[i] := round(c[i] + round(a[i] + b[i]));
      i := i + 1;
    }
  }

  /** All the workers' loops one after the other: each element is added exactly once. */
  method SequentialAdd(round: Rounding, a: array<real>, b: array<real>, c: array<real>, workers: nat)
    requires a != c && b != c && a.Length == b.Length == c.Length && workers >= 1
    modifies c
    ensures forall i :: 0 <= i < c.Length ==> c[i] == round(old(c[i]) + round(a[i] + b[i]))
  {
    var n, w := c.Length, 0;
    ghost var done := 0;
    while w < workers
      invariant 0 <= w <= workers && 0 <= done <= n
      invariant done == if w < workers then First(n, workers, w) else n
      invariant forall i :: 0 <= i < n ==> c[i] == if i < done then round(old(c[i]) + round(a[i] + b[i])) else old(c[i])
    {
      Shares(n, workers, w);
      AddRange(round, a, b, c, First(n, workers, w), Last(n, workers, w));
      w, done := w + 1, Last(n, workers, w) + 1;
    }
  }

  // ----- index words -----

  const Modulus: nat := 0x1_0000_0000

  /** (unsigned)x and (int)u: an empty range ends at -1, which travels as 2^32 - 1. */
  function ToUnsigned(x: int): nat { x % Modulus }
  function ToInt(u: nat): int { if u % Modulus >= Modulus / 2 then u % Modulus - Modulus else u % Modulus }

  lemma IndexRoundTrip(x: int)
    requires -(Modulus / 2) <= x < Modulus / 2
    ensures ToInt(ToUnsigned(x)) == x
  {
  }

  // ----- the machine -----

  datatype Word = PtrA | PtrB | PtrC | Index(u: nat) | PtrBar | Start

  datatype WorkerPc =
    | Unborn | PopArg | PopStart
    | Load(i: int) | Store(i: int, sum: real)
    | EnterBarrier | LeaveBarrier | Finished

  datatype Worker = Worker(pc: WorkerPc, args: seq<Word>)

  datatype ManagerPc =
    | Create(w: nat) | Push(w: nat, k: nat) | PushStart(w: nat)
    | EnterBar | LeaveBar | Join(w: nat) | Check | Done(passed: bool)

  datatype Config = Config(n: nat, workers: nat, depth: nat, a: seq<real>, b: seq<real>, round: Rounding)

  function SumAt(cfg: Config, i: nat): real
    requires i < |cfg.a| && i < |cfg.b|
  {
    cfg.round(cfg.a[i] + cfg.b[i])
  }

  datatype State = State(
    cfg: Config, mgr: ManagerPc, workers: seq<Worker>, queues: seq<Channel<Word>>, bar: Barrier, c: seq<real>)

  /** N fits the int it is assigned to. */
  ghost predicate GoodConfig(cfg: Config) {
    && cfg.workers >= 1 && cfg.depth >= 1 && cfg.n < Modulus / 2
    && |cfg.a| == |cfg.b| == cfg.n && Settles(cfg.round)
  }

  ghost predicate Init(s: State) {
    && GoodConfig(s.cfg) && s.mgr == Create(0)
    && |s.workers| == |s.queues| == s.cfg.workers && |s.c| == s.cfg.n
    && (forall w :: 0 <= w < s.cfg.workers ==>
          s.workers[w] == Worker(Unborn, []) && s.queues[w] == Channel(s.cfg.depth, []))
    && s.bar == NewBarrier(s.cfg.workers + 1)
    && forall i :: 0 <= i < s.cfg.n ==> s.c[i] == 0.0
  }

  function Packet(cfg: Config, w: nat, k: nat): Word
    requires cfg.workers >= 1
  {
    match k
    case 0 => PtrA
    case 1 => PtrB
    case 2 => PtrC
    case 3 => Index(ToUnsigned(First(cfg.n, cfg.workers, w)))
    case 4 => Index(ToUnsigned(Last(cfg.n, cfg.workers, w)))
    case 5 => PtrBar
    case _ => Start
  }

  predicate ManagerEnabled(s: State) {
    match s.mgr
    case Create(w) => w < |s.workers|
    case Push(w, k) => w < |s.queues| && s.cfg.workers >= 1 && s.queues[w].CanPush()
    case PushStart(w) => w < |s.queues| && s.queues[w].CanPush()
    case EnterBar => s.bar.CanEnter(0)
    case LeaveBar => s.bar.CanLeave(0)
    case Join(w) => w < |s.workers| && s.workers[w].pc == Finished
    case Check => true
    case Done(_) => false
  }

  /** What the final check of main looks for. */
  predicate Passes(cfg: Config, c: seq<real>) {
    forall i :: 0 <= i < |c| && i < |cfg.a| && i < |cfg.b| ==> c[i] == SumAt(cfg, i)
  }

  function ManagerStep(s: State): State
    requires ManagerEnabled(s)
  {
    var m := s.cfg.workers;
    match s.mgr
    case Create(w) =>
      s.(workers := s.workers[w := s.workers[w].(pc := PopArg)], mgr := if w + 1 < m then Create(w + 1) else Push(0, 0))
    case Push(w, k) =>
      s.(queues := s.queues[w := s.queues[w].Push(Packet(s.cfg, w, k))],
         mgr := if k + 1 < 6 then Push(w, k + 1) else if w + 1 < m then Push(w + 1, 0) else PushStart(0))
    case PushStart(w) =>
      s.(queues := s.queues[w := s.queues[w].Push(Start)], mgr := if w + 1 < m then PushStart(w + 1) else EnterBar)
    case EnterBar => s.(bar := s.bar.Enter(0), mgr := LeaveBar)
    case LeaveBar => s.(bar := s.bar.Leave(0), mgr := Join(0))
    case Join(w) => s.(mgr := if w + 1 < m then Join(w + 1) else Check)
    case Check => s.(mgr := Done(Passes(s.cfg, s.c)))
  }

  predicate GoodArgs(args: seq<Word>) {
    && |args| == 6 && args[0] == PtrA && args[1] == PtrB && args[2] == PtrC
    && args[3].Index? && args[4].Index? && args[5] == PtrBar
  }

  /** The loop test of the worker. */
  function NextIndex(args: seq<Word>, i: int): WorkerPc
    requires GoodArgs(args)
  {
    if i <= ToInt(args[4].u) then Load(i) else EnterBarrier
  }

  predicate WorkerEnabled(s: State, w: nat) {
    && w < |s.workers| && w < |s.queues|
    && var wk := s.workers[w];
       match wk.pc
       case Unborn => false
       case PopArg => s.queues[w].CanPop()
       case PopStart => GoodArgs(wk.args) && s.queues[w].CanPop()
       case Load(i) => GoodArgs(wk.args) && 0 <= i < |s.c|
       case Store(i, _) => GoodArgs(wk.args) && 0 <= i < |s.c| && i < |s.cfg.a| && i < |s.cfg.b|
       case EnterBarrier => s.bar.CanEnter(w + 1)
       case LeaveBarrier => s.bar.CanLeave(w + 1)
       case Finished => false
  }

  function At(s: State, w: nat, pc: WorkerPc): State
    requires w < |s.workers|
  {
    s.(workers := s.workers[w := s.workers[w].(pc := pc)])
  }

  function WorkerStep(s: State, w: nat): State
    requires WorkerEnabled(s, w)
  {
    var wk := s.workers[w];
    match wk.pc
    case PopArg =>
      var args := wk.args + [s.queues[w].Head()];
      s.(queues := s.queues[w := s.queues[w].Pop()],
         workers := s.workers[w := Worker(if |args| < 6 then PopArg else PopStart, args)])
    case PopStart =>
      At(s, w, NextIndex(wk.args, ToInt(wk.args[3].u))).(queues := s.queues[w := s.queues[w].Pop()])
    case Load(i) => At(s, w, Store(i, s.c[i]))
    case Store(i, x) => At(s, w, NextIndex(wk.args, i + 1)).(c := s.c[i := s.cfg.round(x + SumAt(s.cfg, i))])
    case EnterBarrier => At(s, w, LeaveBarrier).(bar := s.bar.Enter(w + 1))
    case LeaveBarrier => At(s, w, Finished).(bar := s.bar.Leave(w + 1))
  }

  predicate Enabled(s: State, actor: nat) {
    if actor == 0 then ManagerEnabled(s) else WorkerEnabled(s, actor - 1)
  }

  function Apply(s: State, actor: nat): State
    requires Enabled(s, actor)
  {
    if actor == 0 then ManagerStep(s) else WorkerStep(s, actor - 1)
  }

  ghost predicate Run(tr: seq<State>, sched: seq<nat>) {
    && |tr| == |sched| + 1 && Init(tr[0])
    && forall i {:trigger sched[i]} :: 0 <= i < |sched| ==> Enabled(tr[i], sched[i]) && tr[i + 1] == Apply(tr[i], sched[i])
  }

  // ----- the invariant -----

  predicate InLoop(pc: WorkerPc) { pc.Load? || pc.Store? }
  predicate Computed(pc: WorkerPc) { pc.EnterBarrier? || pc.LeaveBarrier? || pc.Finished? }
  predicate Started(pc: WorkerPc) { InLoop(pc) || Computed(pc) }

  /** Indices of worker w below this one are done. */
  function Progress(cfg: Config, w: nat, pc: WorkerPc): int
    requires cfg.workers >= 1
  {
    if InLoop(pc) then pc.i else if Computed(pc) then Last(cfg.n, cfg.workers, w) + 1 else First(cfg.n, cfg.workers, w)
  }

  function Popped(wk: Worker): nat { |wk.args| + if Started(wk.pc) then 1 else 0 }

  predicate Created(m: ManagerPc, w: nat) { m.Create? ==> w < m.w }
  function Pushed(m: ManagerPc, w: nat): nat {
    match m
    case Create(_) => 0
    case Push(v, k) => if w < v then 6 else if w == v then k else 0
    case PushStart(v) => if w < v then 7 else 6
    case _ => 7
  }

  function Entered(pc: WorkerPc): nat { if pc.LeaveBarrier? || pc.Finished? then 1 else 0 }
  function Left(pc: WorkerPc): nat { if pc.Finished? then 1 else 0 }
  function ManagerEntered(m: ManagerPc): nat { if m.LeaveBar? then 1 else ManagerLeft(m) }
  function ManagerLeft(m: ManagerPc): nat { if m.Join? || m.Check? || m.Done? then 1 else 0 }

  function Packets(cfg: Config, w: nat, from: nat, to: nat): (r: seq<Word>)
    requires cfg.workers >= 1 && from <= to
    ensures |r| == to - from
    ensures forall k :: 0 <= k < |r| ==> r[k] == Packet(cfg, w, from + k)
  {
    seq(to - from, k requires 0 <= k => Packet(cfg, w, from + k))
  }

  ghost predicate Sizes(s: State) {
    && GoodConfig(s.cfg)
    && |s.workers| == |s.queues| == s.cfg.workers && |s.c| == s.cfg.n
    && |s.bar.entered| == |s.bar.left| == s.cfg.workers + 1
  }

  predicate PcInv(cfg: Config, w: nat, wk: Worker)
    requires cfg.workers >= 1
  {
    && |wk.args| <= 6 && wk.args == Packets(cfg, w, 0, |wk.args|)
    && (wk.pc.Unborn? ==> wk.args == []) && (wk.pc.PopArg? ==> |wk.args| < 6)
    && (wk.pc.PopStart? || Started(wk.pc) ==> |wk.args| == 6)
    && (InLoop(wk.pc) ==> First(cfg.n, cfg.workers, w) <= wk.pc.i <= Last(cfg.n, cfg.workers, w))
  }

  predicate QueueInv(cfg: Config, w: nat, wk: Worker, pushed: nat, queue: Channel<Word>)
    requires cfg.workers >= 1
  {
    Popped(wk) <= pushed && queue == Channel(cfg.depth, Packets(cfg, w, Popped(wk), pushed))
  }

  /** Worker w's part of c: finished below its progress, untouched from there on. */
  ghost predicate CellInv(cfg: Config, w: nat, pc: WorkerPc, c: seq<real>)
    requires GoodConfig(cfg) && |c| == cfg.n
  {
    && (forall i :: 0 <= i < cfg.n && First(cfg.n, cfg.workers, w) <= i <= Last(cfg.n, cfg.workers, w) ==>
          c[i] == if i < Progress(cfg, w, pc) then SumAt(cfg, i) else 0.0)
    && (pc.Store? && 0 <= pc.i < cfg.n ==> pc.sum == c[pc.i])
  }

  ghost predicate WorkerInv(s: State, w: nat)
    requires Sizes(s) && w < s.cfg.workers
  {
    var wk := s.workers[w];
    && PcInv(s.cfg, w, wk)
    && (wk.pc.Unborn? <==> !Created(s.mgr, w))
    && QueueInv(s.cfg, w, wk, Pushed(s.mgr, w), s.queues[w])
    && CellInv(s.cfg, w, wk.pc, s.c)
    && s.bar.entered[w + 1] == Entered(wk.pc) && s.bar.left[w + 1] == Left(wk.pc)
  }

  ghost predicate ManagerInv(s: State)
    requires Sizes(s)
  {
    && (match s.mgr
        case Create(w) => w < s.cfg.workers
        case Push(w, k) => w < s.cfg.workers && k < 6
        case PushStart(w) => w < s.cfg.workers
        case Join(w) => w < s.cfg.workers && forall v :: 0 <= v < w ==> s.workers[v].pc == Finished
        case Check => forall v :: 0 <= v < s.cfg.workers ==> s.workers[v].pc == Finished
        case Done(passed) => passed && forall v :: 0 <= v < s.cfg.workers ==> s.workers[v].pc == Finished
        case _ => true)
    && s.bar.entered[0] == ManagerEntered(s.mgr) && s.bar.left[0] == ManagerLeft(s.mgr)
  }

  ghost predicate Inv(s: State) {
    && Sizes(s) && ManagerInv(s) && s.bar.Safe()
    && forall w :: 0 <= w < s.cfg.workers ==> WorkerInv(s, w)
  }

  lemma InitInv(s: State)
    requires Init(s)
    ensures Inv(s)
  {
    forall w | 0 <= w < s.cfg.workers ensures WorkerInv(s, w) {
      assert s.workers[w] == Worker(Unborn, []) && s.queues[w] == Channel(s.cfg.depth, []);
      assert Packets(s.cfg, w, 0, 0) == [];
    }
  }

  // ----- the manager's steps keep it -----

  lemma PushExtends(cfg: Config, w: nat, wk: Worker, pushed: nat, queue: Channel<Word>)
    requires cfg.workers >= 1 && QueueInv(cfg, w, wk, pushed, queue) && queue.CanPush()
    ensures QueueInv(cfg, w, wk, pushed + 1, queue.Push(Packet(cfg, w, pushed)))
  {
    assert Packets(cfg, w, Popped(wk), pushed + 1) == Packets(cfg, w, Popped(wk), pushed) + [Packet(cfg, w, pushed)];
  }

  lemma ManagerKeepsWorkers(s: State, w: nat)
    requires Sizes(s) && ManagerInv(s) && ManagerEnabled(s) && w < s.cfg.workers && WorkerInv(s, w)
    requires Sizes(ManagerStep(s))
    ensures WorkerInv(ManagerStep(s), w)
  {
    if (s.mgr.Push? || s.mgr.PushStart?) && s.mgr.w == w {
      PushExtends(s.cfg, w, s.workers[w], Pushed(s.mgr, w), s.queues[w]);
    } else {
      assert Pushed(ManagerStep(s).mgr, w) == Pushed(s.mgr, w);
    }
  }

  /** Behind the barrier every element is the sum. */
  lemma BarrierMeansDone(s: State, i: nat)
    requires Inv(s) && s.bar.left[0] == 1 && i < s.cfg.n
    ensures s.c[i] == SumAt(s.cfg, i)
  {
    var w := RangesCover(s.cfg.n, s.cfg.workers, s.cfg.workers - 1, i);
    assert WorkerInv(s, w);
    assert s.bar.left[0] <= s.bar.entered[w + 1];
  }

  lemma ManagerStepInv(s: State)
    requires Inv(s) && ManagerEnabled(s)
    ensures Inv(ManagerStep(s))
  {
    var s' := ManagerStep(s);
    BarrierStaysSafe(s.bar, 0);
    if s.mgr.Check? {
      forall i | 0 <= i < s.cfg.n ensures s.c[i] == SumAt(s.cfg, i) { BarrierMeansDone(s, i); }
    }
    if s.mgr.Create? { assert WorkerInv(s, s.mgr.w); }
    forall w | 0 <= w < s.cfg.workers ensures WorkerInv(s', w) {
      ManagerKeepsWorkers(s, w);
    }
  }

  // ----- a worker's steps keep it -----

  /** The popped words are the worker's own range. */
  lemma ArgsAreRange(cfg: Config, w: nat, args: seq<Word>)
    requires GoodConfig(cfg) && w < cfg.workers && |args| == 6 && args == Packets(cfg, w, 0, 6)
    ensures GoodArgs(args)
    ensures ToInt(args[3].u) == First(cfg.n, cfg.workers, w) && ToInt(args[4].u) == Last(cfg.n, cfg.workers, w)
  {
    Shares(cfg.n, cfg.workers, w);
    IndexRoundTrip(First(cfg.n, cfg.workers, w));
    IndexRoundTrip(Last(cfg.n, cfg.workers, w));
    assert args[3] == Packet(cfg, w, 3) && args[4] == Packet(cfg, w, 4);
    assert args[0] == Packet(cfg, w, 0) && args[1] == Packet(cfg, w, 1) && args[2] == Packet(cfg, w, 2);
    assert args[5] == Packet(cfg, w, 5);
  }

  lemma OwnQueue(s: State, w: nat)
    requires Sizes(s) && WorkerEnabled(s, w) && PcInv(s.cfg, w, s.workers[w])
    requires QueueInv(s.cfg, w, s.workers[w], Pushed(s.mgr, w), s.queues[w])
    ensures QueueInv(s.cfg, w, WorkerStep(s, w).workers[w], Pushed(s.mgr, w), WorkerStep(s, w).queues[w])
    ensures s.workers[w].pc.PopArg? ==> s.queues[w].Head() == Packet(s.cfg, w, |s.workers[w].args|)
  {
    var popped := Popped(s.workers[w]);
    if s.workers[w].pc.PopArg? || s.workers[w].pc.PopStart? {
      assert Packets(s.cfg, w, popped, Pushed(s.mgr, w))[1..] == Packets(s.cfg, w, popped + 1, Pushed(s.mgr, w));
    }
  }

  lemma OwnPc(s: State, w: nat)
    requires Sizes(s) && WorkerEnabled(s, w) && PcInv(s.cfg, w, s.workers[w])
    requires s.workers[w].pc.PopArg? ==> s.queues[w].Head() == Packet(s.cfg, w, |s.workers[w].args|)
    ensures PcInv(s.cfg, w, WorkerStep(s, w).workers[w])
  {
    Shares(s.cfg.n, s.cfg.workers, w);
    if |s.workers[w].args| == 6 { ArgsAreRange(s.cfg, w, s.workers[w].args); }
  }

  lemma OwnCells(s: State, w: nat)
    requires Sizes(s) && WorkerEnabled(s, w) && PcInv(s.cfg, w, s.workers[w])
    requires CellInv(s.cfg, w, s.workers[w].pc, s.c)
    ensures |WorkerStep(s, w).c| == s.cfg.n && CellInv(s.cfg, w, WorkerStep(s, w).workers[w].pc, WorkerStep(s, w).c)
  {
    Shares(s.cfg.n, s.cfg.workers, w);
    if |s.workers[w].args| == 6 { ArgsAreRange(s.cfg, w, s.workers[w].args); }
  }

  /** A worker writes only cells of its own range. */
  lemma OtherCells(cfg: Config, w: nat, v: nat, pc: WorkerPc, c: seq<real>, i: int, x: real)
    requires GoodConfig(cfg) && |c| == cfg.n && w < cfg.workers && v < cfg.workers && v != w
    requires 0 <= i < cfg.n && First(cfg.n, cfg.workers, w) <= i <= Last(cfg.n, cfg.workers, w)
    requires CellInv(cfg, v, pc, c) && (InLoop(pc) ==> First(cfg.n, cfg.workers, v) <= pc.i <= Last(cfg.n, cfg.workers, v))
    ensures CellInv(cfg, v, pc, c[i := x])
  {
    if First(cfg.n, cfg.workers, v) <= i <= Last(cfg.n, cfg.workers, v) {
      RangesDisjoint(cfg.n, cfg.workers, w, v, i);
    }
  }

  lemma WorkerKeepsOthers(s: State, w: nat, v: nat)
    requires Sizes(s) && WorkerEnabled(s, w) && WorkerInv(s, w) && Sizes(WorkerStep(s, w))
    requires v < s.cfg.workers && v != w && WorkerInv(s, v)
    ensures WorkerInv(WorkerStep(s, w), v)
  {
    if s.workers[w].pc.Store? {
      var i := s.workers[w].pc.i;
      OtherCells(s.cfg, w, v, s.workers[v].pc, s.c, i, WorkerStep(s, w).c[i]);
    }
  }

  lemma WorkerKeepsItself(s: State, w: nat)
    requires Sizes(s) && WorkerEnabled(s, w) && WorkerInv(s, w) && Sizes(WorkerStep(s, w))
    ensures WorkerInv(WorkerStep(s, w), w)
  {
    OwnQueue(s, w);
    OwnPc(s, w);
    OwnCells(s, w);
  }

  lemma WorkerKeepsManager(s: State, w: nat)
    requires Sizes(s) && WorkerEnabled(s, w) && ManagerInv(s)
    ensures Sizes(WorkerStep(s, w)) && ManagerInv(WorkerStep(s, w))
  {
  }

  lemma WorkerStepInv(s: State, w: nat)
    requires Inv(s) && WorkerEnabled(s, w)
    ensures Inv(WorkerStep(s, w))
  {
    assert WorkerInv(s, w);
    BarrierStaysSafe(s.bar, w + 1);
    WorkerKeepsManager(s, w);
    forall v | 0 <= v < s.cfg.workers ensures WorkerInv(WorkerStep(s, w), v) {
      if v == w { WorkerKeepsItself(s, w); } else { WorkerKeepsOthers(s, w, v); }
    }
  }

  lemma {:induction false} RunInv(tr: seq<State>, sched: seq<nat>, i: nat)
    requires Run(tr, sched) && i < |tr|
    ensures Inv(tr[i]) && tr[i].cfg == tr[0].cfg
  {
    if i == 0 {
      InitInv(tr[0]);
    } else {
      RunInv(tr, sched, i - 1);
      if sched[i - 1] == 0 { ManagerStepInv(tr[i - 1]); } else { WorkerStepInv(tr[i - 1], sched[i - 1] - 1); }
    }
  }

  /** Parallel vector add is sequential vector add: for every N and worker count, in
      every interleaving, once the manager has returned from the barrier every c[i] is
      a[i] + b[i]; in particular when it checks after the joins. */
  lemma ParallelIsSequential(tr: seq<State>, sched: seq<nat>, m: nat, i: nat)
    requires Run(tr, sched) && m < |tr| && i < tr[0].cfg.n
    requires tr[m].mgr.Join? || tr[m].mgr.Check? || tr[m].mgr.Done?
    ensures i < |tr[m].c| && i < |tr[0].cfg.a| && i < |tr[0].cfg.b|
    ensures tr[m].c[i] == tr[0].cfg.round(tr[0].cfg.a[i] + tr[0].cfg.b[i])
  {
    RunInv(tr, sched, m);
    BarrierMeansDone(tr[m], i);
  }

  // ----- no deadlock -----

  lemma {:induction false} MissingEntry(entered: seq<nat>, i: nat) returns (u: nat)
    requires i <= |entered| && !(forall u :: i <= u < |entered| ==> 1 <= entered[u])
    ensures i <= u < |entered| && entered[u] == 0
  {
    u :| i <= u < |entered| && !(1 <= entered[u]);
  }

  /** In every reachable unfinished state some thread can take a step that is not a wait. */
  lemma NoDeadlock(s: State) returns (actor: nat)
    requires Inv(s) && !s.mgr.Done?
    ensures Enabled(s, actor)
  {
    if ManagerEnabled(s) {
      actor := 0;
    } else {
      var w := if s.mgr.LeaveBar? then 0 else s.mgr.w;
      if s.mgr.LeaveBar? {
        var u := MissingEntry(s.bar.entered, 0);
        w := u - 1;
      }
      actor := w + 1;
      assert WorkerInv(s, w);
      Shares(s.cfg.n, s.cfg.workers, w);
      if |s.workers[w].args| == 6 { ArgsAreRange(s.cfg, w, s.workers[w].args); }
      assert s.mgr.Join? ==> s.bar.left[0] <= s.bar.entered[w + 1];
      if s.workers[w].pc.LeaveBarrier? {
        forall u | 0 <= u < |s.bar.entered| ensures s.bar.entered[w + 1] <= s.bar.entered[u] {
          assert s.bar.left[0] <= s.bar.entered[u];
        }
      }
    }
  }

  // ----- termination -----

  function Minus(a: nat, b: int): nat { if a >= b then a - b else 0 }

  function WorkerWork(n: nat): Worker -> nat {
    (wk: Worker) =>
      match wk.pc
      case Unborn => 2 * n + 11
      case PopArg => 2 * n + 4 + Minus(6, |wk.args|)
      case PopStart => 2 * n + 4
      case Load(i) => 2 * Minus(n, i) + 3
      case Store(i, _) => 2 * Minus(n, i) + 2
      case EnterBarrier => 2
      case LeaveBarrier => 1
      case Finished => 0
  }

  function ManagerWork(workers: nat, m: ManagerPc): nat {
    match m
    case Create(w) => Minus(workers, w) + 8 * workers + 3
    case Push(w, k) => 6 * Minus(workers, w + 1) + Minus(6, k) + 2 * workers + 3
    case PushStart(w) => Minus(workers, w) + workers + 3
    case EnterBar => workers + 3
    case LeaveBar => workers + 2
    case Join(w) => Minus(workers, w) + 1
    case Check => 1
    case Done(_) => 0
  }

  function Work(s: State): nat {
    ManagerWork(s.cfg.workers, s.mgr) + Sum(WorkerWork(s.cfg.n), s.workers)
  }

  lemma ManagerWorks(s: State)
    requires Sizes(s) && ManagerInv(s) && ManagerEnabled(s)
    requires s.mgr.Create? ==> s.workers[s.mgr.w] == Worker(Unborn, [])
    ensures Work(ManagerStep(s)) < Work(s)
  {
    if s.mgr.Create? {
      SumUpdate(WorkerWork(s.cfg.n), s.workers, s.mgr.w, Worker(PopArg, []));
      assert ManagerStep(s).workers == s.workers[s.mgr.w := Worker(PopArg, [])];
    }
  }

  lemma OwnWork(s: State, w: nat)
    requires Sizes(s) && WorkerEnabled(s, w) && PcInv(s.cfg, w, s.workers[w])
    ensures WorkerWork(s.cfg.n)(WorkerStep(s, w).workers[w]) < WorkerWork(s.cfg.n)(s.workers[w])
    ensures WorkerStep(s, w).workers == s.workers[w := WorkerStep(s, w).workers[w]]
  {
    Shares(s.cfg.n, s.cfg.workers, w);
    if |s.workers[w].args| == 6 { ArgsAreRange(s.cfg, w, s.workers[w].args); }
  }

  /** Every step, of any thread, uses up a finite stock of work. */
  lemma WorkDecreases(s: State, actor: nat)
    requires Inv(s) && Enabled(s, actor)
    ensures Work(Apply(s, actor)) < Work(s)
  {
    if actor == 0 {
      if s.mgr.Create? { assert WorkerInv(s, s.mgr.w); }
      ManagerWorks(s);
    } else {
      var w := actor - 1;
      assert WorkerInv(s, w);
      OwnWork(s, w);
      SumUpdate(WorkerWork(s.cfg.n), s.workers, w, WorkerStep(s, w).workers[w]);
    }
  }

  lemma RunLength(tr: seq<State>, sched: seq<nat>, i: nat)
    requires Run(tr, sched) && i < |tr|
    ensures i + Work(tr[i]) <= Work(tr[0])
  {
    var work := seq(|tr|, k requires 0 <= k < |tr| => Work(tr[k]));
    forall k | 0 < k < |work| ensures Falls(work, k) { WorkNext(tr, sched, k); }
    Countdown(work, i);
  }

  lemma WorkNext(tr: seq<State>, sched: seq<nat>, i: nat)
    requires Run(tr, sched) && 0 < i < |tr|
    ensures Work(tr[i]) < Work(tr[i - 1])
  {
    RunInv(tr, sched, i - 1);
    WorkDecreases(tr[i - 1], sched[i - 1]);
  }

  lemma DoneIsStuck(s: State, actor: nat)
    requires Inv(s) && s.mgr.Done?
    ensures !Enabled(s, actor)
  {
    if 0 < actor <= s.cfg.workers { assert s.workers[actor - 1].pc == Finished; }
  }

  /** Every complete interleaving, for any N, number of workers and queue depth from one:
      it is finite, it stops only when the manager has joined every worker and made its
      check, and then the check has passed. */
  lemma EveryRunPasses(tr: seq<State>, sched: seq<nat>)
    requires Run(tr, sched)
    ensures |sched| <= Work(tr[0])
    ensures (forall actor: nat :: !Enabled(tr[|sched|], actor)) <==> tr[|sched|].mgr.Done?
    ensures tr[|sched|].mgr.Done? ==>
              && tr[|sched|].mgr.passed && |tr[|sched|].c| == tr[0].cfg.n == |tr[0].cfg.a| == |tr[0].cfg.b|
              && forall i :: 0 <= i < tr[0].cfg.n ==>
                   tr[|sched|].c[i] == tr[0].cfg.round(tr[0].cfg.a[i] + tr[0].cfg.b[i])
  {
    var s := tr[|sched|];
    RunLength(tr, sched, |sched|);
    RunInv(tr, sched, |sched|);
    if s.mgr.Done? {
      forall actor: nat ensures !Enabled(s, actor) { DoneIsStuck(s, actor); }
      forall i | 0 <= i < s.cfg.n ensures s.c[i] == SumAt(s.cfg, i) { BarrierMeansDone(s, i); }
    } else {
      var actor := NoDeadlock(s);
    }
  }

  /** The final check of main, which stops at the first difference. */
  method CheckResult(cfg: Config, c: seq<real>) returns (pass: bool)
    requires |cfg.a| == |cfg.b| == |c| == cfg.n
    ensures pass <==> forall i :: 0 <= i < cfg.n ==> c[i] == cfg.round(cfg.a[i] + cfg.b[i])
    ensures pass <==> Passes(cfg, c)
  {
    pass := true;
    var i := 0;
    while i < cfg.n
      invariant 0 <= i <= cfg.n && pass
      invariant forall k :: 0 <= k < i ==> c[k] == SumAt(cfg, k)
    {
      if c[i] != SumAt(cfg, i) {
        return false;
      }
      i := i + 1;
    }
  }
}
