/** The tracing compiler pass emitted by scripts/generate_model.py: `identify` walks
    each basic block and decides which instructions get a runtime call with how many
    stall cycles; `runOnModule` inserts the calls before those instructions. */
module StallPass {

  /** One instruction as the pass sees it. The dependence analysis contributes, per
      instruction, at most three earlier memory operations of the block. */
  datatype Instr =
    | Load(deps: seq<nat>)
    | Store(deps: seq<nat>)
    | Counted(deps: seq<nat>)   // an opcode listed in llvm_instr
    | Call
    | Other

  /** The vectors `identify` fills: instructions with a load or store call, plain stalls
      and stalls that wait for earlier operations. */
  datatype Stall = Stall(at: nat, cycles: nat)
  datatype DepStall = DepStall(at: nat, cycles: nat, deps: seq<nat>)
  datatype Plan = Plan(loads: seq<nat>, stores: seq<nat>, stalls: seq<Stall>, depStalls: seq<DepStall>)

  /** What `identify` decides for the block from instruction i on, with `pending`
      cycles counted and not yet attached. */
  function PlanFrom(block: seq<Instr>, i: nat, pending: nat): Plan
    requires i <= |block|
    decreases |block| - i
  {
    if i == |block| then
      Plan([], [], if pending > 0 && |block| > 0 then [Stall(|block| - 1, pending)] else [], [])
    else
      match block[i]
      case Load(_) =>
        var p := PlanFrom(block, i + 1, 0);
        p.(loads := [i] + p.loads, stalls := (if pending > 0 then [Stall(i, pending)] else []) + p.stalls)
      case Store(_) =>
        var p := PlanFrom(block, i + 1, 0);
        p.(stores := [i] + p.stores, stalls := (if pending > 0 then [Stall(i, pending)] else []) + p.stalls)
      case Counted(deps) =>
        if deps == [] then PlanFrom(block, i + 1, pending + 1)
        else
          var p := PlanFrom(block, i + 1, 0);
          p.(depStalls := [DepStall(i, pending + 1, deps)] + p.depStalls)
      case Call => PlanFrom(block, i + 1, pending)
      case Other => PlanFrom(block, i + 1, pending)
  }

  function Joined(p: Plan, q: Plan): Plan {
    Plan(p.loads + q.loads, p.stores + q.stores, p.stalls + q.stalls, p.depStalls + q.depStalls)
  }

  lemma JoinedMore(p: Plan, one: Plan, q: Plan)
    ensures Joined(Joined(p, one), q) == Joined(p, Joined(one, q))
  {
    Associate(p.loads, one.loads, q.loads);
    Associate(p.stores, one.stores, q.stores);
    Associate(p.stalls, one.stalls, q.stalls);
    Associate(p.depStalls, one.depStalls, q.depStalls);
  }

  lemma Associate<T>(a: seq<T>, b: seq<T>, c: seq<T>)
    ensures (a + b) + c == a + (b + c)
  {}

  /** What instruction i adds to the plan, and what is pending behind it. */
  function Attached(x: Instr, i: nat, pending: nat): Plan {
    var due := if pending > 0 then [Stall(i, pending)] else [];
    match x
    case Load(_) => Plan([i], [], due, [])
    case Store(_) => Plan([], [i], due, [])
    case Counted(deps) => Plan([], [], [], if deps == [] then [] else [DepStall(i, pending + 1, deps)])
    case Call => Plan([], [], [], [])
    case Other => Plan([], [], [], [])
  }

  function PendingAfter(x: Instr, pending: nat): nat {
    if x.Load? || x.Store? then 0 else if x.Counted? then (if x.deps == [] then pending + 1 else 0) else pending
  }

  lemma PlanNext(block: seq<Instr>, i: nat, pending: nat, p: Plan)
    requires i < |block|
    ensures Joined(p, PlanFrom(block, i, pending))
         == Joined(Joined(p, Attached(block[i], i, pending)), PlanFrom(block, i + 1, PendingAfter(block[i], pending)))
  {
    JoinedMore(p, Attached(block[i], i, pending), PlanFrom(block, i + 1, PendingAfter(block[i], pending)));
  }

  /** The generated loop over one basic block. */
  method Identify(block: seq<Instr>) returns (plan: Plan)
    requires block != []
    ensures plan == PlanFrom(block, 0, 0)
    ensures PlannedCycles(plan) == CountedIn(block)
    ensures WellPlaced(block, plan)
  {
    var loads: seq<nat>, stores: seq<nat>, stalls: seq<Stall>, depStalls: seq<DepStall> := [], [], [], [];
    var i, stallCount := 0, 0;
    ghost var all := PlanFrom(block, 0, 0);
    while i < |block|
      invariant 0 <= i <= |block|
      invariant Joined(Plan(loads, stores, stalls, depStalls), PlanFrom(block, i, stallCount)) == all
    {
      PlanNext(block, i, stallCount, Plan(loads, stores, stalls, depStalls));
      match block[i] {
        case Load(_) =>
          loads := loads + [i];
          if stallCount > 0 { stalls, stallCount := stalls + [Stall(i, stallCount)], 0; }
        case Store(_) =>
          stores := stores + [i];
          if stallCount > 0 { stalls, stallCount := stalls + [Stall(i, stallCount)], 0; }
        case Counted(deps) =>
          stallCount := stallCount + 1;
          if deps != [] { depStalls, stallCount := depStalls + [DepStall(i, stallCount, deps)], 0; }
        case Call =>
        case Other =>
      }
      i := i + 1;
    }
    if stallCount > 0 {
      stalls := stalls + [Stall(|block| - 1, stallCount)];
    }
    plan := Plan(loads, stores, stalls, depStalls);
    PlanConserves(block, 0, 0);
    PlanPlaces(block);
  }

  // ----- where everything is attached -----

  /** An instruction that takes the cycles counted so far: a memory operation, or a counted
      instruction that waits for one. */
  predicate Attaches(x: Instr) { x.Load? || x.Store? || (x.Counted? && x.deps != []) }

  /** The first instruction after the last attachment before i. */
  function Since(block: seq<Instr>, i: nat): (from: nat)
    requires i <= |block|
    ensures from <= i && (from == 0 || Attaches(block[from - 1]))
    ensures forall k :: from <= k < i ==> !Attaches(block[k])
  {
    if i == 0 || Attaches(block[i - 1]) then i else Since(block, i - 1)
  }

  /** The instructions counted since then. */
  function Due(block: seq<Instr>, i: nat): nat
    requires i <= |block|
  {
    CountedFalls(block, Since(block, i), i);
    CountedFrom(block, Since(block, i)) - CountedFrom(block, i)
  }

  lemma {:induction false} CountedFalls(block: seq<Instr>, j: nat, i: nat)
    requires j <= i <= |block|
    ensures CountedFrom(block, i) <= CountedFrom(block, j)
    decreases i - j
  {
    if j < i { CountedFalls(block, j + 1, i); }
  }

  lemma DueNext(block: seq<Instr>, i: nat)
    requires i < |block|
    ensures Due(block, i + 1) == if Attaches(block[i]) then 0 else Due(block, i) + if block[i].Counted? then 1 else 0
  {
    if !Attaches(block[i]) { assert Since(block, i + 1) == Since(block, i); }
  }

  predicate Memory(x: Instr) { x.Load? || x.Store? }

  predicate Waits(x: Instr) { x.Counted? && x.deps != [] }

  predicate InOrder(s: seq<nat>) { forall k, l :: 0 <= k < l < |s| ==> s[k] < s[l] }

  /** From instruction i on: the loads, each once and in order; and the stores. */
  ghost predicate LoadsPlaced(block: seq<Instr>, i: nat, loads: seq<nat>) {
    InOrder(loads) && forall k :: k in loads <==> i <= k < |block| && block[k].Load?
  }

  ghost predicate StoresPlaced(block: seq<Instr>, i: nat, stores: seq<nat>) {
    InOrder(stores) && forall k :: k in stores <==> i <= k < |block| && block[k].Store?
  }

  /** A plain stall belongs to a memory operation, with the cycles due there, or to the last
      instruction, with those left at the end of the block. */
  predicate DueAt(block: seq<Instr>, i: nat, x: Stall) {
    && x.at < |block| && x.cycles > 0
    && if Memory(block[x.at]) then i <= x.at && x.cycles == Due(block, x.at)
       else x.at + 1 == |block| && x.cycles == Due(block, |block|)
  }

  /** Exactly these are there, each once and in order. */
  ghost predicate StallsPlaced(block: seq<Instr>, i: nat, stalls: seq<Stall>) {
    && (forall k, l :: 0 <= k < l < |stalls| ==> stalls[k].at < stalls[l].at)
    && (forall x :: x in stalls <==> DueAt(block, i, x))
  }

  /** A dependent stall belongs to a counted instruction with dependences, waits for exactly
      those, and stands for the cycles due and the instruction itself. */
  predicate WaitsAt(block: seq<Instr>, i: nat, x: DepStall) {
    && i <= x.at < |block| && Waits(block[x.at])
    && x.deps == block[x.at].deps && x.cycles == Due(block, x.at) + 1
  }

  ghost predicate DepStallsPlaced(block: seq<Instr>, i: nat, stalls: seq<DepStall>) {
    && (forall k, l :: 0 <= k < l < |stalls| ==> stalls[k].at < stalls[l].at)
    && (forall x :: x in stalls <==> WaitsAt(block, i, x))
  }

  ghost predicate WellPlaced(block: seq<Instr>, plan: Plan) {
    && LoadsPlaced(block, 0, plan.loads) && StoresPlaced(block, 0, plan.stores)
    && StallsPlaced(block, 0, plan.stalls) && DepStallsPlaced(block, 0, plan.depStalls)
  }

  lemma PlanPlaces(block: seq<Instr>)
    requires block != []
    ensures WellPlaced(block, PlanFrom(block, 0, 0))
  {
    PlacesLoads(block, 0, 0);
    PlacesStores(block, 0, 0);
    PlacesStalls(block, 0, 0);
    PlacesDepStalls(block, 0, 0);
  }

  lemma {:induction false} PlacesLoads(block: seq<Instr>, i: nat, pending: nat)
    requires i <= |block|
    ensures LoadsPlaced(block, i, PlanFrom(block, i, pending).loads)
    decreases |block| - i
  {
    if i < |block| {
      var next := if Attaches(block[i]) then 0 else pending + if block[i].Counted? then 1 else 0;
      PlacesLoads(block, i + 1, next);
      if block[i].Load? { AddFirst(i, PlanFrom(block, i + 1, next).loads); }
    }
  }

  lemma {:induction false} PlacesStores(block: seq<Instr>, i: nat, pending: nat)
    requires i <= |block|
    ensures StoresPlaced(block, i, PlanFrom(block, i, pending).stores)
    decreases |block| - i
  {
    if i < |block| {
      var next := if Attaches(block[i]) then 0 else pending + if block[i].Counted? then 1 else 0;
      PlacesStores(block, i + 1, next);
      if block[i].Store? { AddFirst(i, PlanFrom(block, i + 1, next).stores); }
    }
  }

  lemma AddFirst(i: nat, s: seq<nat>)
    requires InOrder(s) && forall k :: k in s ==> i < k
    ensures InOrder([i] + s) && forall k :: k in [i] + s <==> k == i || k in s
  {
    forall k, l | 0 <= k < l < |[i] + s| ensures ([i] + s)[k] < ([i] + s)[l] {
      assert ([i] + s)[l] == s[l - 1] && s[l - 1] in s;
    }
  }

  lemma {:induction false} PlacesStalls(block: seq<Instr>, i: nat, pending: nat)
    requires i <= |block| && block != [] && pending == Due(block, i)
    ensures StallsPlaced(block, i, PlanFrom(block, i, pending).stalls)
    decreases |block| - i
  {
    if i < |block| {
      DueNext(block, i);
      var p := PlanFrom(block, i + 1, Due(block, i + 1));
      PlacesStalls(block, i + 1, Due(block, i + 1));
      if Memory(block[i]) {
        AddStall(block, i, p.stalls);
      } else {
        assert forall x :: DueAt(block, i, x) <==> DueAt(block, i + 1, x);
      }
    } else {
      assert pending > 0 ==> DueAt(block, i, Stall(|block| - 1, pending)) && !Memory(block[|block| - 1]);
    }
  }

  lemma AddStall(block: seq<Instr>, i: nat, stalls: seq<Stall>)
    requires i < |block| && Memory(block[i]) && StallsPlaced(block, i + 1, stalls)
    ensures StallsPlaced(block, i, (if Due(block, i) > 0 then [Stall(i, Due(block, i))] else []) + stalls)
  {
    forall k | 0 <= k < |stalls| ensures i < stalls[k].at {
      assert stalls[k] in stalls && DueAt(block, i + 1, stalls[k]);
    }
    var all := (if Due(block, i) > 0 then [Stall(i, Due(block, i))] else []) + stalls;
    forall x ensures x in all <==> DueAt(block, i, x) {
      assert x in all <==> (Due(block, i) > 0 && x == Stall(i, Due(block, i))) || x in stalls;
    }
  }

  lemma {:induction false} PlacesDepStalls(block: seq<Instr>, i: nat, pending: nat)
    requires i <= |block| && pending == Due(block, i)
    ensures DepStallsPlaced(block, i, PlanFrom(block, i, pending).depStalls)
    decreases |block| - i
  {
    if i < |block| {
      DueNext(block, i);
      var p := PlanFrom(block, i + 1, Due(block, i + 1));
      PlacesDepStalls(block, i + 1, Due(block, i + 1));
      if Waits(block[i]) {
        AddDepStall(block, i, p.depStalls);
      } else {
        assert forall x :: WaitsAt(block, i, x) <==> WaitsAt(block, i + 1, x);
      }
    }
  }

  lemma AddDepStall(block: seq<Instr>, i: nat, stalls: seq<DepStall>)
    requires i < |block| && Waits(block[i]) && DepStallsPlaced(block, i + 1, stalls)
    ensures DepStallsPlaced(block, i, [DepStall(i, Due(block, i) + 1, block[i].deps)] + stalls)
  {
    var x0 := DepStall(i, Due(block, i) + 1, block[i].deps);
    forall k | 0 <= k < |stalls| ensures i < stalls[k].at {
      assert stalls[k] in stalls && WaitsAt(block, i + 1, stalls[k]);
    }
    forall x ensures x in [x0] + stalls <==> WaitsAt(block, i, x) {
      assert x in [x0] + stalls <==> x == x0 || x in stalls;
    }
  }

  // ----- every counted instruction is charged once -----

  function CountedFrom(block: seq<Instr>, i: nat): nat
    requires i <= |block|
    decreases |block| - i
  {
    if i == |block| then 0 else (if block[i].Counted? then 1 else 0) + CountedFrom(block, i + 1)
  }

  /** Instructions of the block that the pass counts. */
  function CountedIn(block: seq<Instr>): nat { CountedFrom(block, 0) }

  function StallTotal(stalls: seq<Stall>): nat {
    if stalls == [] then 0 else stalls[0].cycles + StallTotal(stalls[1..])
  }
  function DepTotal(stalls: seq<DepStall>): nat {
    if stalls == [] then 0 else stalls[0].cycles + DepTotal(stalls[1..])
  }
  function PlannedCycles(plan: Plan): nat { StallTotal(plan.stalls) + DepTotal(plan.depStalls) }

  /** The planned cycles are exactly the counted instructions, for every block. */
  lemma {:induction false} PlanConserves(block: seq<Instr>, i: nat, pending: nat)
    requires i <= |block| && block != []
    ensures PlannedCycles(PlanFrom(block, i, pending)) == pending + CountedFrom(block, i)
    decreases |block| - i
  {
    if i < |block| {
      PlanConserves(block, i + 1, 0);
      PlanConserves(block, i + 1, pending);
      PlanConserves(block, i + 1, pending + 1);
      var p := PlanFrom(block, i + 1, 0);
      if pending > 0 { assert ([Stall(i, pending)] + p.stalls)[1..] == p.stalls; }
      assert block[i].Counted? ==>
        ([DepStall(i, pending + 1, block[i].deps)] + p.depStalls)[1..] == p.depStalls;
      assert [] + p.stalls == p.stalls;
    } else if pending > 0 {
      var last := [Stall(|block| - 1, pending)];
      assert last[1..] == [] && StallTotal(last) == pending + StallTotal(last[1..]);
      assert PlanFrom(block, i, pending) == Plan([], [], last, []);
    }
  }

  /** Every call is attached to an instruction of the block. */
  lemma {:induction false} PlanInRange(block: seq<Instr>, i: nat, pending: nat)
    requires i <= |block| && block != []
    ensures forall k :: 0 <= k < |PlanFrom(block, i, pending).stalls| ==> PlanFrom(block, i, pending).stalls[k].at < |block|
    ensures forall k :: 0 <= k < |PlanFrom(block, i, pending).depStalls| ==> PlanFrom(block, i, pending).depStalls[k].at < |block|
    decreases |block| - i
  {
    if i < |block| {
      PlanInRange(block, i + 1, 0);
      PlanInRange(block, i + 1, pending);
      PlanInRange(block, i + 1, pending + 1);
    }
  }

  // ----- what runs before instruction i -----

  /** Runtime calls, with the operands the program passes at that moment. */
  datatype RtCall =
    | EmitLoad(ptr: int, deps: seq<int>)
    | EmitStore(ptr: int, deps: seq<int>)
    | IncrementStalls(cycles: nat, deps: seq<int>)

  function StallsAt(stalls: seq<Stall>, i: nat): seq<RtCall> {
    if stalls == [] then []
    else (if stalls[0].at == i then [IncrementStalls(stalls[0].cycles, [])] else []) + StallsAt(stalls[1..], i)
  }

  function DepStallsAt(stalls: seq<DepStall>, i: nat, operands: seq<int>): seq<RtCall> {
    if stalls == [] then []
    else (if stalls[0].at == i then [IncrementStalls(stalls[0].cycles, Operands(stalls[0].deps, operands))] else [])
         + DepStallsAt(stalls[1..], i, operands)
  }

  /** The addresses of the operations depended on. */
  function Operands(deps: seq<nat>, operands: seq<int>): seq<int> {
    if deps == [] then []
    else (if deps[0] < |operands| then [operands[deps[0]]] else []) + Operands(deps[1..], operands)
  }

  /** The load or store call is created first, then the stalls, then the dependent
      stalls, each inserted right before the instruction. */
  function CallsAt(block: seq<Instr>, plan: Plan, i: nat, operands: seq<int>): seq<RtCall>
    requires i < |block| == |operands|
  {
    (if i in plan.loads && block[i].Load? then [EmitLoad(operands[i], Operands(block[i].deps, operands))]
     else if i in plan.stores && block[i].Store? then [EmitStore(operands[i], Operands(block[i].deps, operands))]
     else [])
    + StallsAt(plan.stalls, i) + DepStallsAt(plan.depStalls, i, operands)
  }

  function Cycles(calls: seq<RtCall>): nat {
    if calls == [] then 0
    else (if calls[0].IncrementStalls? then calls[0].cycles else 0) + Cycles(calls[1..])
  }

  lemma {:induction false} CyclesAppend(a: seq<RtCall>, b: seq<RtCall>)
    ensures Cycles(a + b) == Cycles(a) + Cycles(b)
  {
    if a == [] {
      assert a + b == b;
    } else {
      CyclesAppend(a[1..], b);
      assert (a + b)[1..] == a[1..] + b;
    }
  }

  /** Cycles charged before instructions i, i + 1, ... by each list. */
  function StallsFrom(stalls: seq<Stall>, i: nat): nat {
    if stalls == [] then 0 else (if stalls[0].at >= i then stalls[0].cycles else 0) + StallsFrom(stalls[1..], i)
  }
  function DepsFrom(stalls: seq<DepStall>, i: nat): nat {
    if stalls == [] then 0 else (if stalls[0].at >= i then stalls[0].cycles else 0) + DepsFrom(stalls[1..], i)
  }

  lemma {:induction false} StallsSplit(stalls: seq<Stall>, i: nat)
    ensures StallsFrom(stalls, i) == Cycles(StallsAt(stalls, i)) + StallsFrom(stalls, i + 1)
  {
    if stalls != [] {
      StallsSplit(stalls[1..], i);
      CyclesAppend(if stalls[0].at == i then [IncrementStalls(stalls[0].cycles, [])] else [], StallsAt(stalls[1..], i));
    }
  }

  lemma {:induction false} DepsSplit(stalls: seq<DepStall>, i: nat, operands: seq<int>)
    ensures DepsFrom(stalls, i) == Cycles(DepStallsAt(stalls, i, operands)) + DepsFrom(stalls, i + 1)
  {
    if stalls != [] {
      DepsSplit(stalls[1..], i, operands);
      CyclesAppend(
        if stalls[0].at == i then [IncrementStalls(stalls[0].cycles, Operands(stalls[0].deps, operands))] else [],
        DepStallsAt(stalls[1..], i, operands));
    }
  }

  lemma {:induction false} StallsEnds(stalls: seq<Stall>, n: nat)
    requires forall k :: 0 <= k < |stalls| ==> stalls[k].at < n
    ensures StallsFrom(stalls, 0) == StallTotal(stalls) && StallsFrom(stalls, n) == 0
  {
    if stalls != [] { StallsEnds(stalls[1..], n); }
  }

  lemma {:induction false} DepsEnds(stalls: seq<DepStall>, n: nat)
    requires forall k :: 0 <= k < |stalls| ==> stalls[k].at < n
    ensures DepsFrom(stalls, 0) == DepTotal(stalls) && DepsFrom(stalls, n) == 0
  {
    if stalls != [] { DepsEnds(stalls[1..], n); }
  }

  // ----- execution of instrumented blocks -----

  /** One execution of a block: the address each memory instruction used, and for each
      call instruction the path of blocks executed by the callee. */
  datatype BlockRun = BlockRun(code: seq<Instr>, operands: seq<int>, nested: seq<Path>)
  datatype Path = End | Run(first: BlockRun, rest: Path)

  predicate WellFormed(r: BlockRun) {
    && r.code != [] && |r.code| == |r.operands| == |r.nested|
    && forall i :: 0 <= i < |r.nested| ==> PathWellFormed(r.nested[i])
  }

  predicate PathWellFormed(path: Path) {
    path.Run? ==> WellFormed(path.first) && PathWellFormed(path.rest)
  }

  /** The runtime calls of an execution, in order. */
  function CallsFrom(r: BlockRun, i: nat): seq<RtCall>
    requires WellFormed(r) && i <= |r.code|
    decreases r, |r.code| - i
  {
    if i == |r.code| then []
    else CallsAt(r.code, PlanFrom(r.code, 0, 0), i, r.operands) + PathCalls(r.nested[i]) + CallsFrom(r, i + 1)
  }

  function PathCalls(path: Path): seq<RtCall>
    requires PathWellFormed(path)
    decreases path, 0
  {
    if path == End then [] else CallsFrom(path.first, 0) + PathCalls(path.rest)
  }

  /** The counted instructions executed. */
  function ExecutedFrom(r: BlockRun, i: nat): nat
    requires WellFormed(r) && i <= |r.code|
    decreases r, |r.code| - i
  {
    if i == |r.code| then 0
    else (if r.code[i].Counted? then 1 else 0) + PathExecuted(r.nested[i]) + ExecutedFrom(r, i + 1)
  }

  function PathExecuted(path: Path): nat
    requires PathWellFormed(path)
    decreases path, 0
  {
    if path == End then 0 else ExecutedFrom(path.first, 0) + PathExecuted(path.rest)
  }

  /** From instruction i on, the calls charge what the plan attaches from i on plus
      whatever the callees execute. */
  lemma {:induction false} RunConserves(r: BlockRun, i: nat)
    requires WellFormed(r) && i <= |r.code|
    ensures Cycles(CallsFrom(r, i)) + CountedFrom(r.code, i)
         == StallsFrom(PlanFrom(r.code, 0, 0).stalls, i) + DepsFrom(PlanFrom(r.code, 0, 0).depStalls, i) + ExecutedFrom(r, i)
    decreases r, |r.code| - i
  {
    var plan := PlanFrom(r.code, 0, 0);
    if i == |r.code| {
      PlanInRange(r.code, 0, 0);
      StallsEnds(plan.stalls, |r.code|);
      DepsEnds(plan.depStalls, |r.code|);
    } else {
      RunConserves(r, i + 1);
      PathConserves(r.nested[i]);
      CyclesAt(r.code, plan, i, r.operands);
      CyclesAppendTwo(CallsAt(r.code, plan, i, r.operands), PathCalls(r.nested[i]), CallsFrom(r, i + 1));
    }
  }

  lemma CyclesAppendTwo(a: seq<RtCall>, b: seq<RtCall>, c: seq<RtCall>)
    ensures Cycles(a + b + c) == Cycles(a) + Cycles(b) + Cycles(c)
  {
    CyclesAppend(a + b, c);
    CyclesAppend(a, b);
  }

  lemma CyclesAt(block: seq<Instr>, plan: Plan, i: nat, operands: seq<int>)
    requires i < |block| == |operands|
    ensures StallsFrom(plan.stalls, i) + DepsFrom(plan.depStalls, i)
         == Cycles(CallsAt(block, plan, i, operands)) + StallsFrom(plan.stalls, i + 1) + DepsFrom(plan.depStalls, i + 1)
  {
    StallsSplit(plan.stalls, i);
    DepsSplit(plan.depStalls, i, operands);
    var mem := CallsAt(block, plan.(stalls := [], depStalls := []), i, operands);
    assert CallsAt(block, plan, i, operands) == mem + StallsAt(plan.stalls, i) + DepStallsAt(plan.depStalls, i, operands);
    CyclesAppend(mem + StallsAt(plan.stalls, i), DepStallsAt(plan.depStalls, i, operands));
    CyclesAppend(mem, StallsAt(plan.stalls, i));
  }

  /** On every path of instrumented blocks, with calls nested to any depth, the stall
      cycles passed to the runtime are the counted instructions executed. */
  lemma {:induction false} PathConserves(path: Path)
    requires PathWellFormed(path)
    ensures Cycles(PathCalls(path)) == PathExecuted(path)
    decreases path, 0
  {
    if path != End {
      var r := path.first;
      RunConserves(r, 0);
      PlanConserves(r.code, 0, 0);
      PlanInRange(r.code, 0, 0);
      StallsEnds(PlanFrom(r.code, 0, 0).stalls, |r.code|);
      DepsEnds(PlanFrom(r.code, 0, 0).depStalls, |r.code|);
      PathConserves(path.rest);
      CyclesAppend(CallsFrom(r, 0), PathCalls(path.rest));
    }
  }

  // ----- what exactly is called -----

  /** The dependences are passed as the addresses those operations used, in order. */
  lemma {:induction false} OperandsAre(deps: seq<nat>, operands: seq<int>)
    requires forall k :: 0 <= k < |deps| ==> deps[k] < |operands|
    ensures |Operands(deps, operands)| == |deps|
    ensures forall k :: 0 <= k < |deps| ==> Operands(deps, operands)[k] == operands[deps[k]]
  {
    if deps != [] { OperandsAre(deps[1..], operands); }
  }

  lemma {:induction false} StallsAtOne(stalls: seq<Stall>, k: nat)
    requires k < |stalls| && forall m, l :: 0 <= m < l < |stalls| ==> stalls[m].at < stalls[l].at
    ensures StallsAt(stalls, stalls[k].at) == [IncrementStalls(stalls[k].cycles, [])]
  {
    if k == 0 {
      StallsAtNone(stalls[1..], stalls[0].at);
    } else {
      StallsAtOne(stalls[1..], k - 1);
    }
  }

  lemma {:induction false} StallsAtNone(stalls: seq<Stall>, i: nat)
    requires forall k :: 0 <= k < |stalls| ==> stalls[k].at != i
    ensures StallsAt(stalls, i) == []
  {
    if stalls != [] { StallsAtNone(stalls[1..], i); }
  }

  lemma {:induction false} DepStallsAtOne(stalls: seq<DepStall>, k: nat, operands: seq<int>)
    requires k < |stalls| && forall m, l :: 0 <= m < l < |stalls| ==> stalls[m].at < stalls[l].at
    ensures DepStallsAt(stalls, stalls[k].at, operands) == [IncrementStalls(stalls[k].cycles, Operands(stalls[k].deps, operands))]
  {
    if k == 0 {
      DepStallsAtNone(stalls[1..], stalls[0].at, operands);
    } else {
      DepStallsAtOne(stalls[1..], k - 1, operands);
    }
  }

  lemma {:induction false} DepStallsAtNone(stalls: seq<DepStall>, i: nat, operands: seq<int>)
    requires forall k :: 0 <= k < |stalls| ==> stalls[k].at != i
    ensures DepStallsAt(stalls, i, operands) == []
  {
    if stalls != [] { DepStallsAtNone(stalls[1..], i, operands); }
  }

  /** The cycles of the plain stall before instruction i, 0 if there is none. */
  function StallDue(block: seq<Instr>, i: nat): nat
    requires i < |block|
  {
    if block[i].Load? || block[i].Store? then Due(block, i) else if i + 1 == |block| then Due(block, |block|) else 0
  }

  lemma PlainStallAt(block: seq<Instr>, i: nat)
    requires i < |block|
    ensures StallsAt(PlanFrom(block, 0, 0).stalls, i)
         == if StallDue(block, i) > 0 then [IncrementStalls(StallDue(block, i), [])] else []
  {
    var stalls := PlanFrom(block, 0, 0).stalls;
    PlanPlaces(block);
    if StallDue(block, i) > 0 {
      var x := Stall(i, StallDue(block, i));
      assert DueAt(block, 0, x);
      var k :| 0 <= k < |stalls| && stalls[k] == x;
      StallsAtOne(stalls, k);
    } else {
      forall k | 0 <= k < |stalls| ensures stalls[k].at != i { assert stalls[k] in stalls && DueAt(block, 0, stalls[k]); }
      StallsAtNone(stalls, i);
    }
  }

  lemma DepStallAt(block: seq<Instr>, i: nat, operands: seq<int>)
    requires i < |block|
    ensures DepStallsAt(PlanFrom(block, 0, 0).depStalls, i, operands)
         == if Waits(block[i]) then [IncrementStalls(Due(block, i) + 1, Operands(block[i].deps, operands))] else []
  {
    var stalls := PlanFrom(block, 0, 0).depStalls;
    PlanPlaces(block);
    if Waits(block[i]) {
      var x := DepStall(i, Due(block, i) + 1, block[i].deps);
      assert WaitsAt(block, 0, x);
      var k :| 0 <= k < |stalls| && stalls[k] == x;
      DepStallsAtOne(stalls, k, operands);
    } else {
      forall k | 0 <= k < |stalls| ensures stalls[k].at != i { assert stalls[k] in stalls && WaitsAt(block, 0, stalls[k]); }
      DepStallsAtNone(stalls, i, operands);
    }
  }

  /** What runs before instruction i: its load or store call, then the plain stall of the
      cycles due, or the dependent stall of the cycles due and its own. */
  lemma CallsBefore(block: seq<Instr>, i: nat, operands: seq<int>)
    requires i < |block| == |operands|
    ensures CallsAt(block, PlanFrom(block, 0, 0), i, operands) ==
            (if block[i].Load? then [EmitLoad(operands[i], Operands(block[i].deps, operands))]
             else if block[i].Store? then [EmitStore(operands[i], Operands(block[i].deps, operands))] else [])
            + (if StallDue(block, i) > 0 then [IncrementStalls(StallDue(block, i), [])] else [])
            + (if block[i].Counted? && block[i].deps != []
               then [IncrementStalls(Due(block, i) + 1, Operands(block[i].deps, operands))] else [])
  {
    PlanPlaces(block);
    PlainStallAt(block, i);
    DepStallAt(block, i, operands);
  }

  // ----- memory accesses -----

  /** An executed load or store: its address and the addresses it depends on. */
  datatype MemOp = MemOp(store: bool, ptr: int, deps: seq<int>)

  function AccessOf(call: RtCall): seq<MemOp> {
    match call
    case EmitLoad(ptr, deps) => [MemOp(false, ptr, deps)]
    case EmitStore(ptr, deps) => [MemOp(true, ptr, deps)]
    case IncrementStalls(_, _) => []
  }

  function MemoryCalls(calls: seq<RtCall>): seq<MemOp> {
    if calls == [] then [] else AccessOf(calls[0]) + MemoryCalls(calls[1..])
  }

  lemma {:induction false} MemoryAppend(a: seq<RtCall>, b: seq<RtCall>)
    ensures MemoryCalls(a + b) == MemoryCalls(a) + MemoryCalls(b)
  {
    if a == [] {
      assert a + b == b;
    } else {
      MemoryAppend(a[1..], b);
      assert (a + b)[1..] == a[1..] + b;
      Associate(AccessOf(a[0]), MemoryCalls(a[1..]), MemoryCalls(b));
    }
  }

  lemma MemoryAppendTwo(a: seq<RtCall>, b: seq<RtCall>, c: seq<RtCall>, x: seq<MemOp>, y: seq<MemOp>, z: seq<MemOp>)
    requires MemoryCalls(a) == x && MemoryCalls(b) == y && MemoryCalls(c) == z
    ensures MemoryCalls(a + b + c) == x + y + z
  {
    MemoryAppend(a + b, c);
    MemoryAppend(a, b);
  }

  function AccessAt(x: Instr, ptr: int, operands: seq<int>): seq<MemOp> {
    if x.Load? then [MemOp(false, ptr, Operands(x.deps, operands))]
    else if x.Store? then [MemOp(true, ptr, Operands(x.deps, operands))]
    else []
  }

  /** The loads and stores an execution performs, in order. */
  function AccessesFrom(r: BlockRun, i: nat): seq<MemOp>
    requires WellFormed(r) && i <= |r.code|
    decreases r, |r.code| - i
  {
    if i == |r.code| then []
    else
      AccessAt(r.code[i], r.operands[i], r.operands) + PathAccesses(r.nested[i]) + AccessesFrom(r, i + 1)
  }

  function PathAccesses(path: Path): seq<MemOp>
    requires PathWellFormed(path)
    decreases path, 0
  {
    if path == End then [] else AccessesFrom(path.first, 0) + PathAccesses(path.rest)
  }

  lemma MemoryCallsAt(block: seq<Instr>, i: nat, operands: seq<int>)
    requires i < |block| == |operands|
    ensures MemoryCalls(CallsAt(block, PlanFrom(block, 0, 0), i, operands)) == AccessAt(block[i], operands[i], operands)
  {
    var plan, x := PlanFrom(block, 0, 0), block[i];
    PlanPlaces(block);
    PlainStallAt(block, i);
    DepStallAt(block, i, operands);
    var mem := if x.Load? then [EmitLoad(operands[i], Operands(x.deps, operands))]
               else if x.Store? then [EmitStore(operands[i], Operands(x.deps, operands))] else [];
    MemoryOfOne(mem);
    MemoryOfOne(StallsAt(plan.stalls, i));
    MemoryOfOne(DepStallsAt(plan.depStalls, i, operands));
    MemoryAppendTwo(mem, StallsAt(plan.stalls, i), DepStallsAt(plan.depStalls, i, operands),
                    AccessAt(x, operands[i], operands), [], []);
  }

  lemma MemoryOfOne(calls: seq<RtCall>)
    requires |calls| <= 1
    ensures MemoryCalls(calls) == if calls == [] then [] else AccessOf(calls[0])
  {
    if calls != [] {
      assert calls[1..] == [];
      assert AccessOf(calls[0]) + [] == AccessOf(calls[0]);
    }
  }

  lemma {:induction false} RunAccesses(r: BlockRun, i: nat)
    requires WellFormed(r) && i <= |r.code|
    ensures MemoryCalls(CallsFrom(r, i)) == AccessesFrom(r, i)
    decreases r, |r.code| - i
  {
    if i < |r.code| {
      RunAccesses(r, i + 1);
      PathRecords(r.nested[i]);
      NextCalls(r, i, PathAccesses(r.nested[i]), AccessesFrom(r, i + 1));
    }
  }

  lemma NextCalls(r: BlockRun, i: nat, nested: seq<MemOp>, rest: seq<MemOp>)
    requires WellFormed(r) && i < |r.code|
    requires nested == MemoryCalls(PathCalls(r.nested[i])) && rest == MemoryCalls(CallsFrom(r, i + 1))
    ensures MemoryCalls(CallsFrom(r, i)) == AccessAt(r.code[i], r.operands[i], r.operands) + nested + rest
  {
    MemoryCallsAt(r.code, i, r.operands);
    MemoryAppendTwo(CallsAt(r.code, PlanFrom(r.code, 0, 0), i, r.operands), PathCalls(r.nested[i]), CallsFrom(r, i + 1),
                    AccessAt(r.code[i], r.operands[i], r.operands), nested, rest);
  }

  /** On every path the load and store calls are the executed loads and stores, in order. */
  lemma {:induction false} PathRecords(path: Path)
    requires PathWellFormed(path)
    ensures MemoryCalls(PathCalls(path)) == PathAccesses(path)
    decreases path, 0
  {
    if path != End {
      RunAccesses(path.first, 0);
      PathRecords(path.rest);
      MemoryAppend(CallsFrom(path.first, 0), PathCalls(path.rest));
    }
  }
}
