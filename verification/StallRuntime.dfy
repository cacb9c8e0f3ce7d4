/** The tracing runtime emitted by scripts/generate_model.py: per-thread stall counters
    and trace switches, and one trace file per processing element. */
module StallRuntime {
  import opened StallPass

  type Tid = nat

  /** What is fixed by the specification file and the registrations: the ids of each PE
      type, the translated address ranges, and the core id of each thread. */
  datatype Config = Config(peTypes: seq<set<nat>>, spaces: seq<(int, int)>, coreId: map<Tid, nat>)

  datatype Entry =
    | StallLine(cycles: int, deps: seq<int>)
    | LoadLine(ptr: int, deps: seq<int>)
    | StoreLine(ptr: int, deps: seq<int>)

  /** stall_counts, trace_bools and traceFiles. */
  datatype Rt = Rt(counts: map<Tid, int>, open: map<Tid, bool>, files: map<nat, seq<Entry>>)

  // ----- the generated functions, on values -----

  predicate IsOpen(rt: Rt, t: Tid) { t in rt.open && rt.open[t] }

  function Count(rt: Rt, t: Tid): int { if t in rt.counts then rt.counts[t] else 0 }

  /** A caller has registered, and its trace file exists while its log is open. */
  predicate Ready(cfg: Config, rt: Rt, t: Tid) {
    t in cfg.coreId && (IsOpen(rt, t) ==> cfg.coreId[t] in rt.files)
  }

  predicate InSpaces(spaces: seq<(int, int)>, ptr: int) {
    exists i :: 0 <= i < |spaces| && spaces[i].0 <= ptr <= spaces[i].1
  }

  function Write(rt: Rt, core: nat, e: Entry): Rt
    requires core in rt.files
  {
    rt.(files := rt.files[core := rt.files[core] + [e]])
  }

  /** Dependences out of the traced ranges print as nothing. */
  function StallDeps(cfg: Config, deps: seq<int>): seq<int> {
    if deps == [] then []
    else (if InSpaces(cfg.spaces, deps[0]) && deps[0] != 0 then [deps[0]] else []) + StallDeps(cfg, deps[1..])
  }

  /** Write the line and clear the counter, once per PE type from k on that claims the core. */
  function StallAll(cfg: Config, rt: Rt, t: Tid, cycles: int, deps: seq<int>, k: nat): (rt': Rt)
    requires t in cfg.coreId && cfg.coreId[t] in rt.files && k <= |cfg.peTypes|
    ensures cfg.coreId[t] in rt'.files && rt'.open == rt.open
    decreases |cfg.peTypes| - k
  {
    if k == |cfg.peTypes| then rt
    else if cfg.coreId[t] in cfg.peTypes[k] then
      var w := Write(rt, cfg.coreId[t], StallLine(cycles, StallDeps(cfg, deps)));
      StallAll(cfg, w.(counts := w.counts[t := 0]), t, cycles, deps, k + 1)
    else StallAll(cfg, rt, t, cycles, deps, k + 1)
  }

  function Flush(cfg: Config, rt: Rt, t: Tid): (rt': Rt)
    requires Ready(cfg, rt, t)
    ensures Ready(cfg, rt', t) && rt'.open == rt.open
  {
    if IsOpen(rt, t) then
      var r := rt.(counts := rt.counts[t := Count(rt, t)]);
      if Count(rt, t) > 0 then StallAll(cfg, r, t, Count(rt, t), [], 0) else r
    else if t in rt.counts then rt.(counts := rt.counts[t := 0])
    else rt
  }

  /** dep2 and dep3 are dropped when they repeat an earlier one. */
  function Distinct(deps: seq<int>): seq<int> {
    (if |deps| > 0 then [deps[0]] else [])
    + (if |deps| > 1 && deps[1] != deps[0] then [deps[1]] else [])
    + (if |deps| > 2 && deps[2] != deps[1] && deps[2] != deps[0] then [deps[2]] else [])
  }

  function StallOn(cfg: Config, rt: Rt, t: Tid, cycles: nat, deps: seq<int>): (rt': Rt)
    requires Ready(cfg, rt, t)
    ensures Ready(cfg, rt', t) && rt'.open == rt.open
  {
    if IsOpen(rt, t) then
      var r := rt.(counts := rt.counts[t := Count(rt, t)]);
      if cycles > 0 then StallAll(cfg, r, t, cycles, Distinct(deps), 0) else r
    else if t in rt.counts then rt.(counts := rt.counts[t := 0])
    else rt
  }

  function IncStalls(cfg: Config, rt: Rt, t: Tid, cycles: nat, deps: seq<int>): (rt': Rt)
    requires Ready(cfg, rt, t)
    ensures Ready(cfg, rt', t) && rt'.open == rt.open
  {
    if deps != [] then
      if IsOpen(rt, t) then StallOn(cfg, Flush(cfg, rt, t), t, cycles, deps) else rt
    else if IsOpen(rt, t) then rt.(counts := rt.counts[t := Count(rt, t) + cycles])
    else if t in rt.counts then rt.(counts := rt.counts[t := 0])
    else rt
  }

  /** Per PE type that claims the core: flush the stalls, then write the memory line. */
  function MemoryAll(cfg: Config, rt: Rt, t: Tid, e: Entry, k: nat): (rt': Rt)
    requires Ready(cfg, rt, t) && IsOpen(rt, t) && k <= |cfg.peTypes|
    ensures Ready(cfg, rt', t) && rt'.open == rt.open
    decreases |cfg.peTypes| - k
  {
    if k == |cfg.peTypes| then rt
    else if cfg.coreId[t] in cfg.peTypes[k] then
      MemoryAll(cfg, Write(Flush(cfg, rt, t), cfg.coreId[t], e), t, e, k + 1)
    else MemoryAll(cfg, rt, t, e, k + 1)
  }

  function Access(cfg: Config, rt: Rt, t: Tid, ptr: int, e: Entry): (rt': Rt)
    requires Ready(cfg, rt, t)
    ensures Ready(cfg, rt', t) && rt'.open == rt.open
  {
    if IsOpen(rt, t) && InSpaces(cfg.spaces, ptr) then MemoryAll(cfg, rt, t, e, 0) else rt
  }

  /** What a runtime call inserted by the pass does. */
  function Do(cfg: Config, rt: Rt, t: Tid, call: RtCall): (rt': Rt)
    requires Ready(cfg, rt, t)
    ensures Ready(cfg, rt', t) && rt'.open == rt.open
  {
    match call
    case EmitLoad(ptr, deps) => Access(cfg, rt, t, ptr, LoadLine(ptr, Distinct(deps)))
    case EmitStore(ptr, deps) => Access(cfg, rt, t, ptr, StoreLine(ptr, Distinct(deps)))
    case IncrementStalls(cycles, deps) => IncStalls(cfg, rt, t, cycles, deps)
  }

  function OpenLog(rt: Rt, t: Tid, core: nat): Rt {
    Rt(rt.counts[t := 0], rt.open[t := true], if core in rt.files then rt.files else rt.files[core := []])
  }

  // ----- the same code, updating the maps in place -----

  class Tracer {
    const cfg: Config
    var counts: map<Tid, int>
    var open: map<Tid, bool>
    var files: map<nat, seq<Entry>>

    constructor (cfg: Config)
      ensures this.cfg == cfg && State() == Rt(map[], map[], map[])
    {
      this.cfg, counts, open, files := cfg, map[], map[], map[];
    }

    function State(): Rt
      reads this
    {
      Rt(counts, open, files)
    }

    method OpenTraceLog(t: Tid, core: nat)
      modifies this
      ensures State() == OpenLog(old(State()), t, core)
    {
      if core !in files { files := files[core := []]; }
      open := open[t := true];
      counts := counts[t := 0];
    }

    method EmitStall(t: Tid)
      requires Ready(cfg, State(), t)
      modifies this
      ensures State() == Flush(cfg, old(State()), t)
    {
      var found := t in counts;
      if t in open && open[t] {
        if !found { counts := counts[t := 0]; }
        assert counts == old(counts)[t := Count(old(State()), t)];
        var stalls := counts[t];
        if stalls > 0 {
          StallLoop(t, stalls, []);
        }
      } else if found {
        counts := counts[t := 0];
      }
    }

    /** The generated chain of PE-type tests. */
    method StallLoop(t: Tid, cycles: int, deps: seq<int>)
      requires t in cfg.coreId && cfg.coreId[t] in files
      modifies this
      ensures State() == StallAll(cfg, old(State()), t, cycles, deps, 0)
    {
      var k := 0;
      while k < |cfg.peTypes|
        invariant 0 <= k <= |cfg.peTypes| && cfg.coreId[t] in files
        invariant StallAll(cfg, State(), t, cycles, deps, k) == StallAll(cfg, old(State()), t, cycles, deps, 0)
      {
        var core := cfg.coreId[t];
        if core in cfg.peTypes[k] {
          files := files[core := files[core] + [StallLine(cycles, StallDeps(cfg, deps))]];
          counts := counts[t := 0];
        }
        k := k + 1;
      }
    }

    method EmitStallWithDeps(t: Tid, cycles: nat, deps: seq<int>)
      requires Ready(cfg, State(), t)
      modifies this
      ensures State() == StallOn(cfg, old(State()), t, cycles, deps)
    {
      var found := t in counts;
      if t in open && open[t] {
        if !found { counts := counts[t := 0]; }
        assert counts == old(counts)[t := Count(old(State()), t)];
        if cycles > 0 {
          StallLoop(t, cycles, Distinct(deps));
        }
      } else if found {
        counts := counts[t := 0];
      }
    }

    method IncrementStalls(t: Tid, cycles: nat, deps: seq<int>)
      requires Ready(cfg, State(), t)
      modifies this
      ensures State() == Do(cfg, old(State()), t, RtCall.IncrementStalls(cycles, deps))
    {
      if |deps| > 0 {
        if t in open && open[t] {
          EmitStall(t);
          EmitStallWithDeps(t, cycles, deps);
        }
      } else if t in open && open[t] {
        counts := counts[t := (if t in counts then counts[t] else 0) + cycles];
      } else if t in counts {
        counts := counts[t := 0];
      }
    }

    /** emit_load and emit_store differ only in the line they write. */
    method EmitMemory(t: Tid, ptr: int, e: Entry)
      requires Ready(cfg, State(), t)
      modifies this
      ensures State() == Access(cfg, old(State()), t, ptr, e)
    {
      if t in open && open[t] && InSpaces(cfg.spaces, ptr) {
        var k := 0;
        while k < |cfg.peTypes|
          invariant 0 <= k <= |cfg.peTypes| && Ready(cfg, State(), t) && IsOpen(State(), t)
          invariant MemoryAll(cfg, State(), t, e, k) == MemoryAll(cfg, old(State()), t, e, 0)
        {
          var core := cfg.coreId[t];
          if core in cfg.peTypes[k] {
            EmitStall(t);
            files := files[core := files[core] + [e]];
          }
          k := k + 1;
        }
      }
    }
  }

  // ----- conservation -----

  /** Stall cycles in a trace file. */
  function Written(file: seq<Entry>): int {
    if file == [] then 0
    else Written(file[..|file| - 1]) + if file[|file| - 1].StallLine? then file[|file| - 1].cycles else 0
  }

  /** Cycles written for thread t plus its pending counter. */
  function Balance(cfg: Config, rt: Rt, t: Tid): int
    requires t in cfg.coreId && cfg.coreId[t] in rt.files
  {
    Written(rt.files[cfg.coreId[t]]) + Count(rt, t)
  }

  /** How many PE types claim the core of thread t. */
  function Claims(cfg: Config, t: Tid, k: nat): nat
    requires t in cfg.coreId && k <= |cfg.peTypes|
    decreases |cfg.peTypes| - k
  {
    if k == |cfg.peTypes| then 0
    else (if cfg.coreId[t] in cfg.peTypes[k] then 1 else 0) + Claims(cfg, t, k + 1)
  }

  lemma WriteAdds(file: seq<Entry>, e: Entry)
    ensures Written(file + [e]) == Written(file) + if e.StallLine? then e.cycles else 0
  {
    assert (file + [e])[..|file|] == file;
  }

  lemma OneMore(m: nat, cycles: int)
    ensures (m + 1) * cycles == m * cycles + cycles
  {}

  /** Each PE type that claims the core writes the cycles again. */
  lemma {:induction false} StallAllWrites(cfg: Config, rt: Rt, t: Tid, cycles: int, deps: seq<int>, k: nat)
    requires t in cfg.coreId && cfg.coreId[t] in rt.files && k <= |cfg.peTypes|
    ensures Written(StallAll(cfg, rt, t, cycles, deps, k).files[cfg.coreId[t]])
         == Written(rt.files[cfg.coreId[t]]) + Claims(cfg, t, k) * cycles
    decreases |cfg.peTypes| - k
  {
    if k < |cfg.peTypes| {
      if cfg.coreId[t] in cfg.peTypes[k] {
        var line := StallLine(cycles, StallDeps(cfg, deps));
        var w := Write(rt, cfg.coreId[t], line);
        WriteAdds(rt.files[cfg.coreId[t]], line);
        StallAllWrites(cfg, w.(counts := w.counts[t := 0]), t, cycles, deps, k + 1);
        OneMore(Claims(cfg, t, k + 1), cycles);
      } else {
        StallAllWrites(cfg, rt, t, cycles, deps, k + 1);
      }
    }
  }

  /** The first one clears the count. */
  lemma {:induction false} StallAllClears(cfg: Config, rt: Rt, t: Tid, cycles: int, deps: seq<int>, k: nat)
    requires t in cfg.coreId && cfg.coreId[t] in rt.files && k <= |cfg.peTypes|
    ensures Count(StallAll(cfg, rt, t, cycles, deps, k), t) == if Claims(cfg, t, k) > 0 then 0 else Count(rt, t)
    decreases |cfg.peTypes| - k
  {
    if k < |cfg.peTypes| {
      if cfg.coreId[t] in cfg.peTypes[k] {
        var w := Write(rt, cfg.coreId[t], StallLine(cycles, StallDeps(cfg, deps)));
        StallAllClears(cfg, w.(counts := w.counts[t := 0]), t, cycles, deps, k + 1);
      } else {
        StallAllClears(cfg, rt, t, cycles, deps, k + 1);
      }
    }
  }

  /** A flush writes the pending count once per PE type that claims the core. */
  lemma FlushWrites(cfg: Config, rt: Rt, t: Tid)
    requires Ready(cfg, rt, t) && IsOpen(rt, t) && Count(rt, t) >= 0
    ensures Written(Flush(cfg, rt, t).files[cfg.coreId[t]])
         == Written(rt.files[cfg.coreId[t]]) + Claims(cfg, t, 0) * Count(rt, t)
    ensures Count(Flush(cfg, rt, t), t) == if Claims(cfg, t, 0) > 0 then 0 else Count(rt, t)
  {
    var r := rt.(counts := rt.counts[t := Count(rt, t)]);
    StallAllWrites(cfg, r, t, Count(rt, t), [], 0);
    StallAllClears(cfg, r, t, Count(rt, t), [], 0);
  }

  /** So does a dependent stall with its own cycles. */
  lemma DepsWrite(cfg: Config, rt: Rt, t: Tid, cycles: nat, deps: seq<int>)
    requires Ready(cfg, rt, t) && IsOpen(rt, t) && cycles > 0
    ensures Written(StallOn(cfg, rt, t, cycles, deps).files[cfg.coreId[t]])
         == Written(rt.files[cfg.coreId[t]]) + Claims(cfg, t, 0) * cycles
    ensures Count(StallOn(cfg, rt, t, cycles, deps), t) == if Claims(cfg, t, 0) > 0 then 0 else Count(rt, t)
  {
    var r := rt.(counts := rt.counts[t := Count(rt, t)]);
    StallAllWrites(cfg, r, t, cycles, Distinct(deps), 0);
    StallAllClears(cfg, r, t, cycles, Distinct(deps), 0);
  }

  lemma FlushConserves(cfg: Config, rt: Rt, t: Tid)
    requires Ready(cfg, rt, t) && IsOpen(rt, t) && Claims(cfg, t, 0) == 1 && Count(rt, t) >= 0
    ensures Balance(cfg, Flush(cfg, rt, t), t) == Balance(cfg, rt, t)
    ensures Count(Flush(cfg, rt, t), t) == 0
  {
    FlushWrites(cfg, rt, t);
  }

  lemma DepsConserves(cfg: Config, rt: Rt, t: Tid, cycles: nat, deps: seq<int>)
    requires Ready(cfg, rt, t) && IsOpen(rt, t) && Claims(cfg, t, 0) == 1 && cycles > 0
    ensures Balance(cfg, StallOn(cfg, rt, t, cycles, deps), t) == Balance(cfg, rt, t) + cycles - Count(rt, t)
    ensures Count(StallOn(cfg, rt, t, cycles, deps), t) == 0
  {
    DepsWrite(cfg, rt, t, cycles, deps);
  }

  lemma {:induction false} MemoryConserves(cfg: Config, rt: Rt, t: Tid, e: Entry, k: nat)
    requires Ready(cfg, rt, t) && IsOpen(rt, t) && k <= |cfg.peTypes| && Claims(cfg, t, 0) == 1
    requires Count(rt, t) >= 0 && !e.StallLine?
    ensures Balance(cfg, MemoryAll(cfg, rt, t, e, k), t) == Balance(cfg, rt, t)
    ensures Count(MemoryAll(cfg, rt, t, e, k), t) >= 0
    decreases |cfg.peTypes| - k
  {
    if k < |cfg.peTypes| {
      if cfg.coreId[t] in cfg.peTypes[k] {
        FlushConserves(cfg, rt, t);
        var f := Flush(cfg, rt, t);
        WriteAdds(f.files[cfg.coreId[t]], e);
        MemoryConserves(cfg, Write(f, cfg.coreId[t], e), t, e, k + 1);
      } else {
        MemoryConserves(cfg, rt, t, e, k + 1);
      }
    }
  }

  /** One runtime call of a thread with an open log and one PE type adds exactly the
      cycles it was given to what is written plus what is pending. */
  lemma CallConserves(cfg: Config, rt: Rt, t: Tid, call: RtCall)
    requires Ready(cfg, rt, t) && IsOpen(rt, t) && Claims(cfg, t, 0) == 1 && Count(rt, t) >= 0
    ensures Balance(cfg, Do(cfg, rt, t, call), t) == Balance(cfg, rt, t) + Cycles([call])
    ensures Count(Do(cfg, rt, t, call), t) >= 0
  {
    assert Cycles([call]) == (if call.IncrementStalls? then call.cycles else 0) + Cycles([call][1..]);
    match call
    case EmitLoad(ptr, deps) =>
      if InSpaces(cfg.spaces, ptr) { MemoryConserves(cfg, rt, t, LoadLine(ptr, Distinct(deps)), 0); }
    case EmitStore(ptr, deps) =>
      if InSpaces(cfg.spaces, ptr) { MemoryConserves(cfg, rt, t, StoreLine(ptr, Distinct(deps)), 0); }
    case IncrementStalls(cycles, deps) =>
      if deps != [] {
        FlushConserves(cfg, rt, t);
        if cycles > 0 { DepsConserves(cfg, Flush(cfg, rt, t), t, cycles, deps); }
      }
  }

  // ----- other threads -----

  predicate Undisturbed(cfg: Config, rt: Rt, rt': Rt, t: Tid)
    requires t in cfg.coreId
  {
    && Count(rt', t) == Count(rt, t) && IsOpen(rt', t) == IsOpen(rt, t)
    && (cfg.coreId[t] in rt.files ==> cfg.coreId[t] in rt'.files && rt'.files[cfg.coreId[t]] == rt.files[cfg.coreId[t]])
  }

  predicate Apart(cfg: Config, t: Tid, u: Tid) {
    t in cfg.coreId && u in cfg.coreId && t != u && cfg.coreId[t] != cfg.coreId[u]
  }

  lemma {:induction false} StallAllApart(cfg: Config, rt: Rt, u: Tid, cycles: int, deps: seq<int>, k: nat, t: Tid)
    requires u in cfg.coreId && cfg.coreId[u] in rt.files && k <= |cfg.peTypes| && Apart(cfg, t, u)
    ensures Undisturbed(cfg, rt, StallAll(cfg, rt, u, cycles, deps, k), t)
    decreases |cfg.peTypes| - k
  {
    if k < |cfg.peTypes| {
      if cfg.coreId[u] in cfg.peTypes[k] {
        var w := Write(rt, cfg.coreId[u], StallLine(cycles, StallDeps(cfg, deps)));
        StallAllApart(cfg, w.(counts := w.counts[u := 0]), u, cycles, deps, k + 1, t);
      } else {
        StallAllApart(cfg, rt, u, cycles, deps, k + 1, t);
      }
    }
  }

  lemma FlushApart(cfg: Config, rt: Rt, u: Tid, t: Tid)
    requires Ready(cfg, rt, u) && Apart(cfg, t, u)
    ensures Undisturbed(cfg, rt, Flush(cfg, rt, u), t)
  {
    var r := rt.(counts := rt.counts[u := Count(rt, u)]);
    if IsOpen(rt, u) { StallAllApart(cfg, r, u, Count(rt, u), [], 0, t); }
  }

  lemma {:induction false} MemoryApart(cfg: Config, rt: Rt, u: Tid, e: Entry, k: nat, t: Tid)
    requires Ready(cfg, rt, u) && IsOpen(rt, u) && k <= |cfg.peTypes| && Apart(cfg, t, u)
    ensures Undisturbed(cfg, rt, MemoryAll(cfg, rt, u, e, k), t)
    decreases |cfg.peTypes| - k
  {
    if k < |cfg.peTypes| {
      if cfg.coreId[u] in cfg.peTypes[k] {
        FlushApart(cfg, rt, u, t);
        MemoryApart(cfg, Write(Flush(cfg, rt, u), cfg.coreId[u], e), u, e, k + 1, t);
      } else {
        MemoryApart(cfg, rt, u, e, k + 1, t);
      }
    }
  }

  /** A call by a thread on another core changes nothing thread t owns. */
  lemma CallApart(cfg: Config, rt: Rt, u: Tid, call: RtCall, t: Tid)
    requires Ready(cfg, rt, u) && Apart(cfg, t, u)
    ensures Undisturbed(cfg, rt, Do(cfg, rt, u, call), t)
  {
    match call
    case EmitLoad(ptr, deps) =>
      if IsOpen(rt, u) && InSpaces(cfg.spaces, ptr) { MemoryApart(cfg, rt, u, LoadLine(ptr, Distinct(deps)), 0, t); }
    case EmitStore(ptr, deps) =>
      if IsOpen(rt, u) && InSpaces(cfg.spaces, ptr) { MemoryApart(cfg, rt, u, StoreLine(ptr, Distinct(deps)), 0, t); }
    case IncrementStalls(cycles, deps) =>
      if deps != [] && IsOpen(rt, u) {
        FlushApart(cfg, rt, u, t);
        var f := Flush(cfg, rt, u);
        StallAllApart(cfg, f.(counts := f.counts[u := Count(f, u)]), u, cycles, Distinct(deps), 0, t);
      }
  }

  // ----- whole runs -----

  datatype Action = Action(t: Tid, call: RtCall)

  /** Every thread that acts is registered on a core of its own and has opened its log. */
  predicate Settled(cfg: Config, rt: Rt, run: seq<Action>) {
    && (forall i :: 0 <= i < |run| ==> Ready(cfg, rt, run[i].t))
    && forall i, j :: 0 <= i < |run| && 0 <= j < |run| && run[i].t != run[j].t ==> Apart(cfg, run[i].t, run[j].t)
  }

  function Perform(cfg: Config, rt: Rt, run: seq<Action>): Rt
    decreases |run|
  {
    if run == [] || !Ready(cfg, rt, run[0].t) then rt
    else Perform(cfg, Do(cfg, rt, run[0].t, run[0].call), run[1..])
  }

  /** The calls of thread t, in order. */
  function CallsOf(run: seq<Action>, t: Tid): seq<RtCall> {
    if run == [] then [] else (if run[0].t == t then [run[0].call] else []) + CallsOf(run[1..], t)
  }

  lemma StaysSettled(cfg: Config, rt: Rt, run: seq<Action>)
    requires run != [] && Settled(cfg, rt, run)
    ensures Settled(cfg, Do(cfg, rt, run[0].t, run[0].call), run[1..])
  {
    var rt' := Do(cfg, rt, run[0].t, run[0].call);
    forall i | 0 <= i < |run[1..]| ensures Ready(cfg, rt', run[1..][i].t) {
      assert Ready(cfg, rt, run[i + 1].t);
      if run[i + 1].t != run[0].t { CallApart(cfg, rt, run[0].t, run[0].call, run[i + 1].t); }
    }
  }

  /** Conservation in the runtime, for every interleaving of the calls of any number of
      threads: what a thread on exactly one PE type has had written, plus what it has
      pending, grows by exactly the cycles its own calls were given. */
  lemma {:induction false} RuntimeConserves(cfg: Config, rt: Rt, run: seq<Action>, t: Tid)
    requires Settled(cfg, rt, run) && Ready(cfg, rt, t) && IsOpen(rt, t)
    requires forall i :: 0 <= i < |run| && run[i].t != t ==> Apart(cfg, t, run[i].t)
    requires Claims(cfg, t, 0) == 1 && Count(rt, t) >= 0
    ensures Ready(cfg, Perform(cfg, rt, run), t) && IsOpen(Perform(cfg, rt, run), t)
    ensures Balance(cfg, Perform(cfg, rt, run), t) == Balance(cfg, rt, t) + Cycles(CallsOf(run, t))
    decreases |run|
  {
    if run != [] {
      var u, call := run[0].t, run[0].call;
      var rt' := Do(cfg, rt, u, call);
      StaysSettled(cfg, rt, run);
      if u == t { CallConserves(cfg, rt, t, call); } else { CallApart(cfg, rt, u, call, t); }
      RuntimeConserves(cfg, rt', run[1..], t);
      CyclesAppend(if u == t then [call] else [], CallsOf(run[1..], t));
    }
  }

  /** Conservation across pass and runtime: a thread that opens its log and runs any
      path of instrumented blocks, interleaved with any calls of threads on other
      cores, ends with as many STALL cycles in its trace, counting those still pending,
      as it executed instructions that the pass counts. */
  lemma TracedStallsAreExecutedInstructions(cfg: Config, rt: Rt, t: Tid, run: seq<Action>, path: Path)
    requires t in cfg.coreId && Claims(cfg, t, 0) == 1 && cfg.coreId[t] !in rt.files
    requires Settled(cfg, OpenLog(rt, t, cfg.coreId[t]), run)
    requires forall i :: 0 <= i < |run| && run[i].t != t ==> Apart(cfg, t, run[i].t)
    requires PathWellFormed(path) && CallsOf(run, t) == PathCalls(path)
    ensures
      var rt' := Perform(cfg, OpenLog(rt, t, cfg.coreId[t]), run);
      && cfg.coreId[t] in rt'.files
      && Written(rt'.files[cfg.coreId[t]]) + Count(rt', t) == PathExecuted(path)
  {
    RuntimeConserves(cfg, OpenLog(rt, t, cfg.coreId[t]), run, t);
    PathConserves(path);
  }

  // ----- the conditions are exact -----

  /** A dependent stall, and what is pending before it, is charged once per PE type that
      claims the core, so it is conserved if and only if exactly one does. */
  lemma ExactlyOnePeType(cfg: Config, rt: Rt, t: Tid, cycles: nat, deps: seq<int>)
    requires Ready(cfg, rt, t) && IsOpen(rt, t) && Count(rt, t) >= 0 && cycles > 0 && deps != []
    ensures Balance(cfg, Do(cfg, rt, t, IncrementStalls(cycles, deps)), t) == Balance(cfg, rt, t) + cycles
       <==> Claims(cfg, t, 0) == 1
  {
    var m := Claims(cfg, t, 0);
    FlushWrites(cfg, rt, t);
    DepsWrite(cfg, Flush(cfg, rt, t), t, cycles, deps);
    if m > 1 { MoreThanOnce(m, Count(rt, t), cycles); }
  }

  lemma MoreThanOnce(m: nat, pending: nat, cycles: nat)
    requires m > 1 && cycles > 0
    ensures m * pending + m * cycles > pending + cycles
  {}

  /** emit_stall_with_deps called directly, as manual tracing does, drops whatever is
      pending: it conserves if and only if nothing is. */
  lemma DirectStallDropsPending(cfg: Config, rt: Rt, t: Tid, cycles: nat, deps: seq<int>)
    requires Ready(cfg, rt, t) && IsOpen(rt, t) && Claims(cfg, t, 0) == 1 && cycles > 0
    ensures Balance(cfg, StallOn(cfg, rt, t, cycles, deps), t) == Balance(cfg, rt, t) + cycles <==> Count(rt, t) == 0
  {
    DepsConserves(cfg, rt, t, cycles, deps);
  }

  // ----- what is written, line by line -----

  function Repeat(e: Entry, m: nat): seq<Entry> { seq(m, _ => e) }

  lemma RepeatMore(file: seq<Entry>, e: Entry, m: nat)
    ensures file + [e] + Repeat(e, m) == file + Repeat(e, m + 1)
  {}

  lemma {:induction false} StallAllLines(cfg: Config, rt: Rt, t: Tid, cycles: int, deps: seq<int>, k: nat)
    requires t in cfg.coreId && cfg.coreId[t] in rt.files && k <= |cfg.peTypes|
    ensures StallAll(cfg, rt, t, cycles, deps, k).files[cfg.coreId[t]]
         == rt.files[cfg.coreId[t]] + Repeat(StallLine(cycles, StallDeps(cfg, deps)), Claims(cfg, t, k))
    decreases |cfg.peTypes| - k
  {
    if k < |cfg.peTypes| {
      if cfg.coreId[t] in cfg.peTypes[k] {
        var line := StallLine(cycles, StallDeps(cfg, deps));
        var w := Write(rt, cfg.coreId[t], line);
        StallAllLines(cfg, w.(counts := w.counts[t := 0]), t, cycles, deps, k + 1);
        RepeatMore(rt.files[cfg.coreId[t]], line, Claims(cfg, t, k + 1));
      } else {
        StallAllLines(cfg, rt, t, cycles, deps, k + 1);
      }
    }
  }

  /** The pending stalls as a flush writes them. */
  function PendingLines(cfg: Config, rt: Rt, t: Tid): seq<Entry>
    requires t in cfg.coreId
  {
    if Count(rt, t) > 0 then Repeat(StallLine(Count(rt, t), []), Claims(cfg, t, 0)) else []
  }

  lemma FlushLines(cfg: Config, rt: Rt, t: Tid)
    requires Ready(cfg, rt, t) && IsOpen(rt, t) && Count(rt, t) >= 0
    ensures Flush(cfg, rt, t).files[cfg.coreId[t]] == rt.files[cfg.coreId[t]] + PendingLines(cfg, rt, t)
    ensures Count(Flush(cfg, rt, t), t) == if Claims(cfg, t, 0) > 0 then 0 else Count(rt, t)
  {
    var r := rt.(counts := rt.counts[t := Count(rt, t)]);
    StallAllLines(cfg, r, t, Count(rt, t), [], 0);
    StallAllClears(cfg, r, t, Count(rt, t), [], 0);
  }

  lemma {:induction false} ClaimsFall(cfg: Config, t: Tid, j: nat, k: nat)
    requires t in cfg.coreId && j <= k <= |cfg.peTypes|
    ensures Claims(cfg, t, k) <= Claims(cfg, t, j)
    decreases k - j
  {
    if j < k { ClaimsFall(cfg, t, j + 1, k); }
  }

  /** Behind one flush, the memory line once per PE type that claims the core. */
  lemma {:induction false} MemoryLines(cfg: Config, rt: Rt, t: Tid, e: Entry, k: nat)
    requires Ready(cfg, rt, t) && IsOpen(rt, t) && k <= |cfg.peTypes| && Count(rt, t) >= 0
    ensures MemoryAll(cfg, rt, t, e, k).files[cfg.coreId[t]]
         == rt.files[cfg.coreId[t]] + (if Claims(cfg, t, k) > 0 then PendingLines(cfg, rt, t) else []) + Repeat(e, Claims(cfg, t, k))
    decreases |cfg.peTypes| - k
  {
    if k < |cfg.peTypes| {
      if cfg.coreId[t] in cfg.peTypes[k] {
        ClaimsFall(cfg, t, 0, k);
        FlushLines(cfg, rt, t);
        var f := Flush(cfg, rt, t);
        var w := Write(f, cfg.coreId[t], e);
        MemoryLines(cfg, w, t, e, k + 1);
        assert w.files[cfg.coreId[t]] + [] == w.files[cfg.coreId[t]];
        RepeatMore(f.files[cfg.coreId[t]], e, Claims(cfg, t, k + 1));
      } else {
        MemoryLines(cfg, rt, t, e, k + 1);
      }
    }
  }

  /** A pointer inside one of the traced ranges, bounds included. */
  predicate Traced(cfg: Config, ptr: int) {
    exists i :: 0 <= i < |cfg.spaces| && cfg.spaces[i].0 <= ptr <= cfg.spaces[i].1
  }

  function Pending(c: int): seq<Entry> { if c > 0 then [StallLine(c, [])] else [] }

  /** The lines one call adds for one PE, when c cycles are pending: those cycles and then
      the line itself, nothing for an address out of range, and nothing for a plain stall. */
  function Added(cfg: Config, c: int, call: RtCall): seq<Entry> {
    match call
    case EmitLoad(ptr, deps) => if Traced(cfg, ptr) then Pending(c) + [LoadLine(ptr, Distinct(deps))] else []
    case EmitStore(ptr, deps) => if Traced(cfg, ptr) then Pending(c) + [StoreLine(ptr, Distinct(deps))] else []
    case IncrementStalls(cycles, deps) =>
      if deps == [] then []
      else Pending(c) + if cycles > 0 then [StallLine(cycles, StallDeps(cfg, Distinct(deps)))] else []
  }

  /** What one call of a thread with an open log adds to its file, m PE types claiming its
      core. A load or store in range: the pending stalls and its own line; out of range:
      nothing. A dependent stall: the pending stalls and its own line; a plain one: nothing,
      it is added to the count. */
  lemma CallWrites(cfg: Config, rt: Rt, t: Tid, call: RtCall)
    requires Ready(cfg, rt, t) && IsOpen(rt, t) && Count(rt, t) >= 0
    ensures Do(cfg, rt, t, call).files[cfg.coreId[t]]
         == rt.files[cfg.coreId[t]] + EachRepeated(Added(cfg, Count(rt, t), call), Claims(cfg, t, 0))
    ensures call.IncrementStalls? && call.deps == [] ==> Count(Do(cfg, rt, t, call), t) == Count(rt, t) + call.cycles
  {
    match call
    case EmitLoad(ptr, deps) => AccessWrites(cfg, rt, t, ptr, LoadLine(ptr, Distinct(deps)));
    case EmitStore(ptr, deps) => AccessWrites(cfg, rt, t, ptr, StoreLine(ptr, Distinct(deps)));
    case IncrementStalls(cycles, deps) => if deps != [] { DepStallWrites(cfg, rt, t, cycles, deps); }
  }

  lemma AccessWrites(cfg: Config, rt: Rt, t: Tid, ptr: int, e: Entry)
    requires Ready(cfg, rt, t) && IsOpen(rt, t) && Count(rt, t) >= 0
    ensures
      var pending := Pending(Count(rt, t));
      Access(cfg, rt, t, ptr, e).files[cfg.coreId[t]]
      == rt.files[cfg.coreId[t]] + EachRepeated(if Traced(cfg, ptr) then pending + [e] else [], Claims(cfg, t, 0))
  {
    MemoryLines(cfg, rt, t, e, 0);
    TwoRepeated(cfg, rt, t, [e]);
  }

  lemma DepStallWrites(cfg: Config, rt: Rt, t: Tid, cycles: nat, deps: seq<int>)
    requires Ready(cfg, rt, t) && IsOpen(rt, t) && Count(rt, t) >= 0 && deps != []
    ensures
      var pending := Pending(Count(rt, t));
      var line := if cycles > 0 then [StallLine(cycles, StallDeps(cfg, Distinct(deps)))] else [];
      IncStalls(cfg, rt, t, cycles, deps).files[cfg.coreId[t]]
      == rt.files[cfg.coreId[t]] + EachRepeated(pending + line, Claims(cfg, t, 0))
  {
    FlushLines(cfg, rt, t);
    var f := Flush(cfg, rt, t);
    if cycles > 0 {
      StallAllLines(cfg, f.(counts := f.counts[t := Count(f, t)]), t, cycles, Distinct(deps), 0);
      TwoRepeated(cfg, rt, t, [StallLine(cycles, StallDeps(cfg, Distinct(deps)))]);
    } else {
      TwoRepeated(cfg, rt, t, []);
    }
  }

  /** Each line m times, one kind of line after the other. */
  function EachRepeated(lines: seq<Entry>, m: nat): seq<Entry> {
    if lines == [] then [] else Repeat(lines[0], m) + EachRepeated(lines[1..], m)
  }

  lemma TwoRepeated(cfg: Config, rt: Rt, t: Tid, line: seq<Entry>)
    requires t in cfg.coreId && |line| <= 1
    ensures
      var m, pending := Claims(cfg, t, 0), if Count(rt, t) > 0 then [StallLine(Count(rt, t), [])] else [];
      EachRepeated(pending + line, m)
      == (if m > 0 then PendingLines(cfg, rt, t) else []) + if line == [] then [] else Repeat(line[0], m)
  {
    var pending := if Count(rt, t) > 0 then [StallLine(Count(rt, t), [])] else [];
    if line != [] { assert line[1..] == []; }
    if pending != [] { assert (pending + line)[1..] == line; } else { assert pending + line == line; }
  }

  /** With the log closed nothing is written; a plain stall forgets the count. */
  lemma ClosedLogWritesNothing(cfg: Config, rt: Rt, t: Tid, call: RtCall)
    requires Ready(cfg, rt, t) && !IsOpen(rt, t)
    ensures Do(cfg, rt, t, call).files == rt.files
    ensures Count(Do(cfg, rt, t, call), t) == if call.IncrementStalls? && call.deps == [] then 0 else Count(rt, t)
  {
  }

  /** Of at most three dependences each is written once, in the order of its first mention. */
  lemma DistinctOnce(deps: seq<int>)
    requires |deps| <= 3
    ensures forall x :: x in Distinct(deps) <==> x in deps
    ensures forall i, j :: 0 <= i < j < |Distinct(deps)| ==>
              Distinct(deps)[i] != Distinct(deps)[j] && MentionedBefore(deps, Distinct(deps)[i], Distinct(deps)[j])
  {
    assert |deps| > 0 ==> deps[0] in Distinct(deps) && Distinct(deps)[0] == deps[0];
    assert |deps| > 1 ==> deps[1] in Distinct(deps);
    assert |deps| > 2 ==> deps[2] in Distinct(deps);
    forall i, j | 0 <= i < j < |Distinct(deps)| ensures MentionedBefore(deps, Distinct(deps)[i], Distinct(deps)[j]) {
      assert Mentioned(deps, if Distinct(deps)[i] == deps[0] then 0 else 1, Distinct(deps)[i]);
    }
  }

  predicate Mentioned(deps: seq<int>, k: nat, x: int) { k < |deps| && deps[k] == x }

  /** x is mentioned at a place before which y is not. */
  predicate MentionedBefore(deps: seq<int>, x: int, y: int) {
    exists k :: 0 <= k < |deps| && Mentioned(deps, k, x) && y !in deps[..k + 1]
  }

  /** A stall line keeps exactly the dependences in range and not 0, in order. */
  lemma {:induction false} StallDepsAre(cfg: Config, a: seq<int>, x: int, b: seq<int>)
    ensures StallDeps(cfg, a + [x] + b)
         == StallDeps(cfg, a) + (if Traced(cfg, x) && x != 0 then [x] else []) + StallDeps(cfg, b)
  {
    var s := a + [x] + b;
    if a == [] {
      assert s[1..] == b;
    } else {
      assert s[1..] == a[1..] + [x] + b;
      StallDepsAre(cfg, a[1..], x, b);
    }
  }

  // ----- the memory lines of a whole run -----

  function MemoryOf(file: seq<Entry>): seq<Entry> {
    if file == [] then []
    else MemoryOf(file[..|file| - 1]) + if file[|file| - 1].StallLine? then [] else [file[|file| - 1]]
  }

  /** The lines of a sequence of loads and stores: those in range, each of its own kind with
      its distinct dependences. */
  function LinesOf(cfg: Config, ops: seq<MemOp>): seq<Entry> {
    if ops == [] then [] else LineOf(cfg, ops[0]) + LinesOf(cfg, ops[1..])
  }

  function LineOf(cfg: Config, op: MemOp): seq<Entry> {
    if !Traced(cfg, op.ptr) then []
    else if op.store then [StoreLine(op.ptr, Distinct(op.deps))]
    else [LoadLine(op.ptr, Distinct(op.deps))]
  }

  lemma {:induction false} LinesAppend(cfg: Config, a: seq<MemOp>, b: seq<MemOp>)
    ensures LinesOf(cfg, a + b) == LinesOf(cfg, a) + LinesOf(cfg, b)
  {
    if a == [] {
      assert a + b == b;
    } else {
      LinesAppend(cfg, a[1..], b);
      assert (a + b)[1..] == a[1..] + b;
      Associate(LineOf(cfg, a[0]), LinesOf(cfg, a[1..]), LinesOf(cfg, b));
    }
  }

  lemma {:induction false} MemoryOfAppend(a: seq<Entry>, b: seq<Entry>)
    ensures MemoryOf(a + b) == MemoryOf(a) + MemoryOf(b)
  {
    if b == [] {
      assert a + b == a;
    } else {
      MemoryOfAppend(a, b[..|b| - 1]);
      assert (a + b)[..|a + b| - 1] == a + b[..|b| - 1];
    }
  }

  lemma PendingMemory(c: int, e: Entry)
    ensures MemoryOf(Pending(c)) == [] && MemoryOf(Pending(c) + [e]) == if e.StallLine? then [] else [e]
  {
    var pending := Pending(c);
    assert pending[..0] == [] && (pending + [e])[..|pending|] == pending;
  }

  lemma LinesOfOne(cfg: Config, op: MemOp)
    ensures LinesOf(cfg, [op]) == LineOf(cfg, op)
  {
    assert [op][1..] == [];
    assert LineOf(cfg, op) + [] == LineOf(cfg, op);
  }

  lemma AddedMemory(cfg: Config, c: int, call: RtCall)
    ensures MemoryOf(Added(cfg, c, call)) == LinesOf(cfg, MemoryCalls([call]))
  {
    MemoryOfOne([call]);
    match call
    case EmitLoad(ptr, deps) =>
      AddedAccess(cfg, c, MemOp(false, ptr, deps), LoadLine(ptr, Distinct(deps)));
    case EmitStore(ptr, deps) =>
      AddedAccess(cfg, c, MemOp(true, ptr, deps), StoreLine(ptr, Distinct(deps)));
    case IncrementStalls(cycles, deps) =>
      AddedStall(c, StallLine(cycles, StallDeps(cfg, Distinct(deps))));
  }

  lemma AddedAccess(cfg: Config, c: int, op: MemOp, e: Entry)
    requires e == if op.store then StoreLine(op.ptr, Distinct(op.deps)) else LoadLine(op.ptr, Distinct(op.deps))
    ensures MemoryOf(if Traced(cfg, op.ptr) then Pending(c) + [e] else []) == LinesOf(cfg, [op])
  {
    PendingMemory(c, e);
    LinesOfOne(cfg, op);
  }

  lemma AddedStall(c: int, e: Entry)
    requires e.StallLine?
    ensures MemoryOf([]) == [] && MemoryOf(Pending(c) + []) == [] && MemoryOf(Pending(c) + [e]) == []
  {
    PendingMemory(c, e);
    assert Pending(c) + [] == Pending(c);
  }

  lemma {:induction false} RepeatedOnce(lines: seq<Entry>)
    ensures EachRepeated(lines, 1) == lines
  {
    if lines != [] {
      RepeatedOnce(lines[1..]);
      assert Repeat(lines[0], 1) == [lines[0]];
    }
  }

  /** One call adds exactly its own memory line. */
  lemma CallRecords(cfg: Config, rt: Rt, t: Tid, call: RtCall)
    requires Ready(cfg, rt, t) && IsOpen(rt, t) && Claims(cfg, t, 0) == 1 && Count(rt, t) >= 0
    ensures MemoryOf(Do(cfg, rt, t, call).files[cfg.coreId[t]])
         == MemoryOf(rt.files[cfg.coreId[t]]) + LinesOf(cfg, MemoryCalls([call]))
  {
    var added := Added(cfg, Count(rt, t), call);
    CallWrites(cfg, rt, t, call);
    RepeatedOnce(added);
    MemoryOfAppend(rt.files[cfg.coreId[t]], added);
    AddedMemory(cfg, Count(rt, t), call);
  }

  /** Over every interleaving the memory lines of a thread grow by those of its own calls. */
  lemma {:induction false} RuntimeRecords(cfg: Config, rt: Rt, run: seq<Action>, t: Tid)
    requires Settled(cfg, rt, run) && Ready(cfg, rt, t) && IsOpen(rt, t)
    requires forall i :: 0 <= i < |run| && run[i].t != t ==> Apart(cfg, t, run[i].t)
    requires Claims(cfg, t, 0) == 1 && Count(rt, t) >= 0
    ensures cfg.coreId[t] in Perform(cfg, rt, run).files
    ensures MemoryOf(Perform(cfg, rt, run).files[cfg.coreId[t]])
         == MemoryOf(rt.files[cfg.coreId[t]]) + LinesOf(cfg, MemoryCalls(CallsOf(run, t)))
    decreases |run|
  {
    if run != [] {
      var u, call := run[0].t, run[0].call;
      var rt' := Do(cfg, rt, u, call);
      StaysSettled(cfg, rt, run);
      RecordsStep(cfg, rt, u, call, t);
      RuntimeRecords(cfg, rt', run[1..], t);
      RecordsNext(cfg, run, t, MemoryOf(rt.files[cfg.coreId[t]]));
    }
  }

  lemma RecordsStep(cfg: Config, rt: Rt, u: Tid, call: RtCall, t: Tid)
    requires Ready(cfg, rt, t) && IsOpen(rt, t) && Claims(cfg, t, 0) == 1 && Count(rt, t) >= 0
    requires Ready(cfg, rt, u) && (u == t || Apart(cfg, t, u))
    ensures
      var rt' := Do(cfg, rt, u, call);
      && Ready(cfg, rt', t) && IsOpen(rt', t) && Count(rt', t) >= 0
      && MemoryOf(rt'.files[cfg.coreId[t]])
         == MemoryOf(rt.files[cfg.coreId[t]]) + if u == t then LinesOf(cfg, MemoryCalls([call])) else []
  {
    if u == t {
      CallRecords(cfg, rt, t, call);
      CallConserves(cfg, rt, t, call);
    } else {
      CallApart(cfg, rt, u, call, t);
    }
  }

  lemma RecordsNext(cfg: Config, run: seq<Action>, t: Tid, lines: seq<Entry>)
    requires run != []
    ensures lines + LinesOf(cfg, MemoryCalls(CallsOf(run, t)))
         == (lines + if run[0].t == t then LinesOf(cfg, MemoryCalls([run[0].call])) else [])
            + LinesOf(cfg, MemoryCalls(CallsOf(run[1..], t)))
  {
    var first := if run[0].t == t then [run[0].call] else [];
    MemoryAppend(first, CallsOf(run[1..], t));
    LinesAppend(cfg, MemoryCalls(first), MemoryCalls(CallsOf(run[1..], t)));
  }

  /** Beside its stalls, the trace of a thread that opens its log and runs any path holds
      exactly its executed loads and stores at traced addresses, in order, each of its own
      kind and with its distinct dependences. */
  lemma TracedAccessesAreExecuted(cfg: Config, rt: Rt, t: Tid, run: seq<Action>, path: Path)
    requires t in cfg.coreId && Claims(cfg, t, 0) == 1 && cfg.coreId[t] !in rt.files
    requires Settled(cfg, OpenLog(rt, t, cfg.coreId[t]), run)
    requires forall i :: 0 <= i < |run| && run[i].t != t ==> Apart(cfg, t, run[i].t)
    requires PathWellFormed(path) && CallsOf(run, t) == PathCalls(path)
    ensures
      var rt' := Perform(cfg, OpenLog(rt, t, cfg.coreId[t]), run);
      cfg.coreId[t] in rt'.files && MemoryOf(rt'.files[cfg.coreId[t]]) == LinesOf(cfg, PathAccesses(path))
  {
    RuntimeRecords(cfg, OpenLog(rt, t, cfg.coreId[t]), run, t);
    PathRecords(path);
  }
}
