/** The windowed reorder buffer of gem5/util/o3-pipeview.py: instructions arrive out of
    order, are sorted once more than `max_threshold` are queued, and are printed until
    `min_threshold` are left. */
module PipeView {
  import opened Counting

  datatype Inst = Inst(sn: int, fetch: int, retire: int)

  /** The region of interest; zero switches a bound off. */
  datatype Region = Region(snStart: int, snStop: int, tickStart: int, tickStop: int, onlyCommitted: bool)

  predicate Kept(r: Region, x: Inst) {
    && !(r.snStart > 0 && x.sn < r.snStart) && !(r.snStop > 0 && x.sn > r.snStop)
    && !(r.tickStart > 0 && x.fetch < r.tickStart) && !(r.tickStop > 0 && x.fetch > r.tickStop)
    && !(r.onlyCommitted && x.retire == 0)
  }

  function Keep(r: Region, s: seq<Inst>): seq<Inst> {
    if s == [] then [] else Keep(r, s[..|s| - 1]) + if Kept(r, s[|s| - 1]) then [s[|s| - 1]] else []
  }

  lemma KeepNext(r: Region, s: seq<Inst>, x: Inst)
    ensures Keep(r, s + [x]) == Keep(r, s) + if Kept(r, x) then [x] else []
  {
    assert (s + [x])[..|s|] == s;
  }

  predicate Sorted(s: seq<Inst>) { forall i, j :: 0 <= i < j < |s| ==> s[i].sn <= s[j].sn }

  /** Everything in a comes before everything in b. */
  predicate Before(a: seq<Inst>, b: seq<Inst>) {
    forall i, j :: 0 <= i < |a| && 0 <= j < |b| ==> a[i].sn <= b[j].sn
  }

  /** Where a stable sort puts x into a sorted list. */
  function Insert(s: seq<Inst>, x: Inst): (r: seq<Inst>)
    requires Sorted(s)
    ensures Sorted(r) && |r| == |s| + 1
    ensures forall i :: 0 <= i < |r| ==> r[i] == x || r[i] in s
  {
    if s == [] || s[|s| - 1].sn <= x.sn then s + [x]
    else Insert(s[..|s| - 1], x) + [s[|s| - 1]]
  }

  /** list.sort(compare_by_sn). */
  function SortBySn(s: seq<Inst>): (r: seq<Inst>)
    ensures Sorted(r) && |r| == |s|
  {
    if s == [] then [] else Insert(SortBySn(s[..|s| - 1]), s[|s| - 1])
  }

  lemma {:induction false} InsertPermutes(s: seq<Inst>, x: Inst)
    requires Sorted(s)
    ensures multiset(Insert(s, x)) == multiset(s) + multiset{x}
  {
    if s != [] && s[|s| - 1].sn > x.sn {
      var front, last := s[..|s| - 1], s[|s| - 1];
      InsertPermutes(front, x);
      assert s == front + [last] && Insert(s, x) == Insert(front, x) + [last];
      assert multiset(s) == multiset(front) + multiset{last};
    }
  }

  lemma {:induction false} SortPermutes(s: seq<Inst>)
    ensures multiset(SortBySn(s)) == multiset(s)
  {
    if s != [] {
      SortPermutes(s[..|s| - 1]);
      InsertPermutes(SortBySn(s[..|s| - 1]), s[|s| - 1]);
      assert s == s[..|s| - 1] + [s[|s| - 1]];
    }
  }

  function Excess(n: nat, lower: nat): nat { if n > lower then n - lower else 0 }

  class Viewer {
    const region: Region
    const maxThreshold: nat
    const minThreshold: nat
    var queue: seq<Inst>
    var printed: seq<Inst>
    ghost var popped: seq<Inst>   // everything taken off the queue, in order

    constructor (region: Region, maxThreshold: nat, minThreshold: nat)
      ensures this.region == region && this.maxThreshold == maxThreshold && this.minThreshold == minThreshold
      ensures queue == printed == popped == []
    {
      this.region, this.maxThreshold, this.minThreshold := region, maxThreshold, minThreshold;
      queue, printed, popped := [], [], [];
    }

    ghost predicate Valid()
      reads this
    {
      printed == Keep(region, popped)
    }

    /** Prints the front of the queue until `lower` instructions are left. */
    method PopUntil(lower: nat)
      requires Valid()
      modifies this
      ensures Valid()
      ensures queue == old(queue)[Excess(|old(queue)|, lower)..]
      ensures popped == old(popped) + old(queue)[..Excess(|old(queue)|, lower)]
    {
      ghost var k := 0;
      while |queue| > lower
        invariant 0 <= k <= Excess(|old(queue)|, lower) && queue == old(queue)[k..]
        invariant popped == old(popped) + old(queue)[..k] && Valid()
      {
        var item := queue[0];
        queue := queue[1..];
        KeepNext(region, popped, item);
        popped, k := popped + [item], k + 1;
        if Kept(region, item) {
          printed := printed + [item];
        }
      }
    }

    method PrintInsts(lower: nat)
      requires Valid()
      modifies this
      ensures Valid()
      ensures queue == SortBySn(old(queue))[Excess(|old(queue)|, lower)..]
      ensures popped == old(popped) + SortBySn(old(queue))[..Excess(|old(queue)|, lower)]
    {
      queue := SortBySn(queue);
      PopUntil(lower);
    }

    method QueueInst(inst: Inst)
      requires Valid()
      modifies this
      ensures Valid()
      ensures (popped, queue) == Queue(maxThreshold, minThreshold, old(popped), old(queue), inst)
    {
      queue := queue + [inst];
      if |queue| > maxThreshold {
        PrintInsts(minThreshold);
      } else {
        assert popped + [] == popped;
      }
    }

    /** The loop over a trace, up to the end of the file. */
    method ProcessTrace(trace: seq<Inst>)
      requires queue == printed == popped == []
      modifies this
      ensures queue == [] && popped == Output(trace, maxThreshold, minThreshold)
      ensures printed == Keep(region, popped)
    {
      var i := 0;
      while i < |trace|
        invariant 0 <= i <= |trace| && Valid()
        invariant (popped, queue) == After(trace, i, maxThreshold, minThreshold)
      {
        QueueInst(trace[i]);
        i := i + 1;
      }
      ghost var rest := SortBySn(queue);
      PrintInsts(0);
      assert rest[..|rest|] == rest;
    }
  }

  // ----- one arrival -----

  /** The queue after an arrival, and what has been taken off it. */
  function Queue(max: nat, min: nat, popped: seq<Inst>, queue: seq<Inst>, x: Inst): (seq<Inst>, seq<Inst>) {
    var q := queue + [x];
    if |q| > max then
      var s := SortBySn(q);
      (popped + s[..Excess(|q|, min)], s[Excess(|q|, min)..])
    else (popped, q)
  }

  /** What has left, and what is queued, after i arrivals. */
  function After(trace: seq<Inst>, i: nat, max: nat, min: nat): (seq<Inst>, seq<Inst>)
    requires i <= |trace|
  {
    if i == 0 then ([], [])
    else
      var (popped, queue) := After(trace, i - 1, max, min);
      Queue(max, min, popped, queue, trace[i - 1])
  }

  /** Everything taken off the queue over a whole trace, in order. */
  function Output(trace: seq<Inst>, max: nat, min: nat): seq<Inst> {
    var (popped, queue) := After(trace, |trace|, max, min);
    popped + SortBySn(queue)
  }

  /** How many are queued after i arrivals, and after which arrival, up to the i-th, the
      queue was last cut. */
  function QueueLen(i: nat, max: nat, min: nat): nat {
    if i == 0 then 0
    else
      var n := QueueLen(i - 1, max, min) + 1;
      if n > max then n - Excess(n, min) else n
  }

  function LastCut(i: nat, max: nat, min: nat): (n: nat)
    ensures n <= i
  {
    if i == 0 || QueueLen(i - 1, max, min) + 1 > max then i else LastCut(i - 1, max, min)
  }

  /** Of the arrivals before the last cut, no more than the cut left queued are larger. */
  predicate OnTime(trace: seq<Inst>, i: nat, max: nat, min: nat)
    requires i < |trace|
  {
    var n := LastCut(i, max, min);
    CountIf(Larger(trace[i].sn), trace[..n]) <= QueueLen(n, max, min)
  }

  predicate AllOnTime(trace: seq<Inst>, max: nat, min: nat) {
    forall i :: 0 <= i < |trace| ==> OnTime(trace, i, max, min)
  }

  /** Earlier arrivals with a larger sequence number. */
  function LargerBefore(trace: seq<Inst>, i: nat): nat
    requires i < |trace|
  {
    CountIf(Larger(trace[i].sn), trace[..i])
  }

  function Larger(sn: int): Inst -> bool { (x: Inst) => x.sn > sn }

  /** Nothing is lost and nothing is repeated ... */
  ghost predicate Accounted(arrived: seq<Inst>, popped: seq<Inst>, queue: seq<Inst>) {
    multiset(arrived) == multiset(popped) + multiset(queue)
  }

  /** ... so the instructions above any sequence number are all there too. */
  ghost predicate Counted(arrived: seq<Inst>, popped: seq<Inst>, queue: seq<Inst>) {
    forall sn :: CountIf(Larger(sn), arrived) == CountIf(Larger(sn), popped) + CountIf(Larger(sn), queue)
  }

  /** What has left is in order and before all that is queued. */
  ghost predicate Ordered(popped: seq<Inst>, queue: seq<Inst>) { Sorted(popped) && Before(popped, queue) }

  lemma {:induction false} CountSplit(p: Inst -> bool, a: seq<Inst>, b: seq<Inst>)
    ensures CountIf(p, a + b) == CountIf(p, a) + CountIf(p, b)
  {
    if a == [] {
      assert a + b == b;
    } else {
      CountSplit(p, a[1..], b);
      assert (a + b)[1..] == a[1..] + b;
    }
  }

  lemma CountOne(p: Inst -> bool, s: seq<Inst>, x: Inst)
    ensures CountIf(p, s + [x]) == CountIf(p, s) + if p(x) then 1 else 0
  {
    CountSplit(p, s, [x]);
    assert [x][1..] == [];
  }

  lemma {:induction false} InsertCounts(p: Inst -> bool, s: seq<Inst>, x: Inst)
    requires Sorted(s)
    ensures CountIf(p, Insert(s, x)) == CountIf(p, s + [x])
  {
    CountOne(p, s, x);
    if s == [] {
      assert [] + [x] == [x];
    } else if s[|s| - 1].sn > x.sn {
      var front, last := s[..|s| - 1], s[|s| - 1];
      InsertCounts(p, front, x);
      CountOne(p, front, x);
      CountOne(p, Insert(front, x), last);
      CountOne(p, front, last);
      assert s == front + [last];
    }
  }

  lemma {:induction false} SortCounts(p: Inst -> bool, s: seq<Inst>)
    ensures CountIf(p, SortBySn(s)) == CountIf(p, s)
  {
    if s != [] {
      var front, last := s[..|s| - 1], s[|s| - 1];
      SortCounts(p, front);
      InsertCounts(p, SortBySn(front), last);
      CountOne(p, SortBySn(front), last);
      CountOne(p, front, last);
      assert s == front + [last];
    }
  }

  lemma {:induction false} QueueLength(trace: seq<Inst>, i: nat, max: nat, min: nat)
    requires i <= |trace|
    ensures |After(trace, i, max, min).1| == QueueLen(i, max, min)
  {
    if i > 0 { QueueLength(trace, i - 1, max, min); }
  }

  lemma NoCut(trace: seq<Inst>, i: nat, max: nat, min: nat)
    requires 0 < i <= |trace| && QueueLen(i - 1, max, min) + 1 <= max
    ensures After(trace, i, max, min).0 == After(trace, i - 1, max, min).0
    ensures After(trace, i, max, min).1 == After(trace, i - 1, max, min).1 + [trace[i - 1]]
  {
    QueueLength(trace, i - 1, max, min);
  }

  lemma Extend(kept: seq<Inst>, trace: seq<Inst>, n: nat, i: nat)
    requires n < i <= |trace|
    ensures kept + trace[n..i - 1] + [trace[i - 1]] == kept + trace[n..i]
  {}

  /** Since the last cut nothing has left, and the arrivals are queued behind what it kept. */
  lemma {:induction false} SinceCut(trace: seq<Inst>, i: nat, max: nat, min: nat)
    requires i <= |trace|
    ensures
      var n := LastCut(i, max, min);
      && After(trace, i, max, min).0 == After(trace, n, max, min).0
      && After(trace, i, max, min).1 == After(trace, n, max, min).1 + trace[n..i]
  {
    var n := LastCut(i, max, min);
    if n == i {
      assert trace[i..i] == [];
    } else {
      SinceCut(trace, i - 1, max, min);
      NoCut(trace, i, max, min);
      Extend(After(trace, n, max, min).1, trace, n, i);
    }
  }

  /** An instruction on time belongs before nothing that has left: else all that the last
      cut kept, and one that has left, would be larger. */
  lemma BelongsBehind(arrived: seq<Inst>, popped: seq<Inst>, kept: seq<Inst>, since: seq<Inst>, sn: int)
    requires Counted(arrived, popped, kept) && Before(popped, kept + since)
    requires CountIf(Larger(sn), arrived) <= |kept|
    ensures forall k :: 0 <= k < |popped| ==> popped[k].sn <= sn
  {
    forall k | 0 <= k < |popped| ensures popped[k].sn <= sn {
      if popped[k].sn > sn {
        CountHas(Larger(sn), popped, k);
        forall j | 0 <= j < |kept| ensures kept[j].sn > sn { assert kept[j] == (kept + since)[j]; }
        CountAll(Larger(sn), kept);
      }
    }
  }

  lemma BeforePermutes(popped: seq<Inst>, q: seq<Inst>, s: seq<Inst>)
    requires Before(popped, q) && multiset(s) == multiset(q)
    ensures Before(popped, s)
  {
    forall i, j | 0 <= i < |popped| && 0 <= j < |s| ensures popped[i].sn <= s[j].sn {
      assert s[j] in multiset(s) && s[j] in multiset(q);
      var m :| 0 <= m < |q| && q[m] == s[j];
    }
  }

  lemma CutOrder(popped: seq<Inst>, s: seq<Inst>, n: nat)
    requires n <= |s| && Sorted(s) && Sorted(popped) && Before(popped, s)
    ensures Sorted(popped + s[..n]) && Before(popped + s[..n], s[n..])
  {
  }

  lemma CutAccounts(arrived: seq<Inst>, popped: seq<Inst>, q: seq<Inst>, s: seq<Inst>, n: nat)
    requires n <= |s| && multiset(s) == multiset(q) && Accounted(arrived, popped, q)
    ensures Accounted(arrived, popped + s[..n], s[n..])
  {
    assert s == s[..n] + s[n..];
    assert multiset(s) == multiset(s[..n]) + multiset(s[n..]);
  }

  lemma CutCount(p: Inst -> bool, popped: seq<Inst>, s: seq<Inst>, n: nat)
    requires n <= |s|
    ensures CountIf(p, popped + s[..n]) + CountIf(p, s[n..]) == CountIf(p, popped) + CountIf(p, s)
  {
    assert s == s[..n] + s[n..];
    CountSplit(p, s[..n], s[n..]);
    CountSplit(p, popped, s[..n]);
  }

  lemma CutCounts(arrived: seq<Inst>, popped: seq<Inst>, q: seq<Inst>, n: nat)
    requires n <= |q| && Counted(arrived, popped, q)
    ensures Counted(arrived, popped + SortBySn(q)[..n], SortBySn(q)[n..])
  {
    var s := SortBySn(q);
    forall sn ensures CountIf(Larger(sn), arrived)
                   == CountIf(Larger(sn), popped + s[..n]) + CountIf(Larger(sn), s[n..])
    {
      SortCounts(Larger(sn), q);
      CutCount(Larger(sn), popped, s, n);
    }
  }

  lemma ArrivalAccounts(trace: seq<Inst>, i: nat, popped: seq<Inst>, queue: seq<Inst>)
    requires i < |trace| && Accounted(trace[..i], popped, queue) && Counted(trace[..i], popped, queue)
    ensures Accounted(trace[..i + 1], popped, queue + [trace[i]]) && Counted(trace[..i + 1], popped, queue + [trace[i]])
  {
    assert trace[..i + 1] == trace[..i] + [trace[i]];
    forall sn ensures CountIf(Larger(sn), trace[..i + 1])
                   == CountIf(Larger(sn), popped) + CountIf(Larger(sn), queue + [trace[i]])
    {
      CountOne(Larger(sn), trace[..i], trace[i]);
      CountOne(Larger(sn), queue, trace[i]);
    }
  }

  /** One arrival keeps the accounts. */
  lemma ArrivalKeeps(trace: seq<Inst>, i: nat, max: nat, min: nat,
                     popped: seq<Inst>, queue: seq<Inst>, popped': seq<Inst>, queue': seq<Inst>)
    requires i < |trace| && Accounted(trace[..i], popped, queue) && Counted(trace[..i], popped, queue)
    requires (popped', queue') == Queue(max, min, popped, queue, trace[i])
    ensures Accounted(trace[..i + 1], popped', queue') && Counted(trace[..i + 1], popped', queue')
  {
    var q := queue + [trace[i]];
    ArrivalAccounts(trace, i, popped, queue);
    SortPermutes(q);
    CutAccounts(trace[..i + 1], popped, q, SortBySn(q), Excess(|q|, min));
    CutCounts(trace[..i + 1], popped, q, Excess(|q|, min));
  }

  /** The accounts after i arrivals. */
  ghost predicate InAccount(trace: seq<Inst>, i: nat, max: nat, min: nat)
    requires i <= |trace|
  {
    && Accounted(trace[..i], After(trace, i, max, min).0, After(trace, i, max, min).1)
    && Counted(trace[..i], After(trace, i, max, min).0, After(trace, i, max, min).1)
  }

  lemma {:induction false} AfterKeeps(trace: seq<Inst>, i: nat, max: nat, min: nat)
    requires i <= |trace|
    ensures InAccount(trace, i, max, min)
  {
    if i == 0 {
      AfterNothing(trace, max, min);
    } else {
      AfterKeeps(trace, i - 1, max, min);
      AfterNext(trace, i - 1, i, max, min);
    }
  }

  lemma AfterNothing(trace: seq<Inst>, max: nat, min: nat)
    ensures InAccount(trace, 0, max, min)
  {
    assert trace[..0] == [];
  }

  lemma AfterNext(trace: seq<Inst>, i: nat, j: nat, max: nat, min: nat)
    requires i < j <= |trace| && j == i + 1 && InAccount(trace, i, max, min)
    ensures InAccount(trace, j, max, min)
  {
    var a, b := After(trace, i, max, min), After(trace, j, max, min);
    ArrivalKeeps(trace, i, max, min, a.0, a.1, b.0, b.1);
  }

  /** Cutting the sorted queue keeps the order. */
  lemma CutKeepsOrder(max: nat, min: nat, popped: seq<Inst>, queue: seq<Inst>, x: Inst)
    requires Ordered(popped, queue) && forall k :: 0 <= k < |popped| ==> popped[k].sn <= x.sn
    ensures
      var (popped', queue') := Queue(max, min, popped, queue, x);
      Ordered(popped', queue')
  {
    var q := queue + [x];
    SortPermutes(q);
    BeforePermutes(popped, q, SortBySn(q));
    CutOrder(popped, SortBySn(q), Excess(|q|, min));
  }

  /** While every arrival is on time, what has left is in order and before the rest. */
  lemma {:induction false} OnTimeOrders(trace: seq<Inst>, i: nat, max: nat, min: nat)
    requires i <= |trace| && AllOnTime(trace, max, min)
    ensures Ordered(After(trace, i, max, min).0, After(trace, i, max, min).1)
  {
    if i > 0 {
      var (popped, queue) := After(trace, i - 1, max, min);
      OnTimeOrders(trace, i - 1, max, min);
      OnTimeBehind(trace, i - 1, max, min);
      CutKeepsOrder(max, min, popped, queue, trace[i - 1]);
    }
  }

  lemma OnTimeBehind(trace: seq<Inst>, i: nat, max: nat, min: nat)
    requires i < |trace| && OnTime(trace, i, max, min) && Before(After(trace, i, max, min).0, After(trace, i, max, min).1)
    ensures forall k :: 0 <= k < |After(trace, i, max, min).0| ==> After(trace, i, max, min).0[k].sn <= trace[i].sn
  {
    var n := LastCut(i, max, min);
    var (popped, kept) := After(trace, n, max, min);
    SinceCut(trace, i, max, min);
    QueueLength(trace, n, max, min);
    AfterKeeps(trace, n, max, min);
    BelongsBehind(trace[..n], popped, kept, trace[n..i], trace[i].sn);
  }

  /** What has left stays at the front of the output. */
  lemma {:induction false} PoppedIsPrefix(trace: seq<Inst>, i: nat, j: nat, max: nat, min: nat)
    requires i <= j <= |trace|
    ensures After(trace, i, max, min).0 <= After(trace, j, max, min).0
    decreases j
  {
    if i < j { PoppedIsPrefix(trace, i, j - 1, max, min); }
  }

  lemma OutputPermutes(trace: seq<Inst>, max: nat, min: nat)
    ensures multiset(Output(trace, max, min)) == multiset(trace)
  {
    var (popped, queue) := After(trace, |trace|, max, min);
    AfterKeeps(trace, |trace|, max, min);
    assert trace[..|trace|] == trace;
    SortPermutes(queue);
  }

  lemma LeavesLater(out: seq<Inst>, popped: seq<Inst>, queue: seq<Inst>, front: seq<Inst>, back: seq<Inst>) returns (m: nat)
    requires popped <= out && back != []
    requires multiset(out) == multiset(front + back) && Accounted(front, popped, queue)
    ensures |popped| <= m < |out| && out[m] == back[0]
  {
    var rest := out[|popped|..];
    assert out == popped + rest;
    var x := back[0];
    assert multiset(front + back)[x] == multiset(front)[x] + multiset(back)[x];
    assert multiset(out)[x] == multiset(popped)[x] + multiset(rest)[x];
    assert multiset(front)[x] == multiset(popped)[x] + multiset(queue)[x];
    assert x in back && multiset(back)[x] > 0;
    assert x in multiset(rest);
    var k :| 0 <= k < |rest| && rest[k] == back[0];
    m := |popped| + k;
  }

  /** The i-th arrival leaves behind everything that left before it arrived. */
  lemma ArrivalLeavesLater(trace: seq<Inst>, i: nat, max: nat, min: nat) returns (m: nat)
    requires i < |trace|
    ensures |After(trace, i, max, min).0| <= m < |Output(trace, max, min)| && Output(trace, max, min)[m] == trace[i]
    ensures After(trace, i, max, min).0 <= Output(trace, max, min)
  {
    var (popped, queue) := After(trace, i, max, min);
    PoppedIsPrefix(trace, i, |trace|, max, min);
    AfterKeeps(trace, i, max, min);
    OutputPermutes(trace, max, min);
    assert trace == trace[..i] + trace[i..];
    m := LeavesLater(Output(trace, max, min), popped, queue, trace[..i], trace[i..]);
  }

  /** A sorted output means the arrival was on time. */
  lemma SortedMeansOnTime(trace: seq<Inst>, i: nat, max: nat, min: nat)
    requires i < |trace| && Sorted(Output(trace, max, min))
    ensures OnTime(trace, i, max, min)
  {
    var n := LastCut(i, max, min);
    var (popped, kept) := After(trace, n, max, min);
    SinceCut(trace, i, max, min);
    QueueLength(trace, n, max, min);
    var m := ArrivalLeavesLater(trace, i, max, min);
    AfterKeeps(trace, n, max, min);
    CountNone(Larger(trace[i].sn), popped);
  }

  lemma OnTimeMeansSorted(trace: seq<Inst>, max: nat, min: nat)
    requires AllOnTime(trace, max, min)
    ensures Sorted(Output(trace, max, min))
  {
    var (popped, queue) := After(trace, |trace|, max, min);
    OnTimeOrders(trace, |trace|, max, min);
    SortPermutes(queue);
    BeforePermutes(popped, queue, SortBySn(queue));
  }

  /** The reorder buffer over a whole trace, for any thresholds: each instruction leaves
      exactly once; they leave sorted by sequence number if and only if every arrival is
      on time; and then the part that is printed is sorted too. */
  lemma ReorderBufferSorts(trace: seq<Inst>, max: nat, min: nat, r: Region)
    ensures multiset(Output(trace, max, min)) == multiset(trace)
    ensures Sorted(Output(trace, max, min)) <==> AllOnTime(trace, max, min)
    ensures AllOnTime(trace, max, min) ==> Sorted(Keep(r, Output(trace, max, min)))
  {
    OutputPermutes(trace, max, min);
    if Sorted(Output(trace, max, min)) {
      forall i | 0 <= i < |trace| ensures OnTime(trace, i, max, min) {
        SortedMeansOnTime(trace, i, max, min);
      }
    }
    if AllOnTime(trace, max, min) {
      OnTimeMeansSorted(trace, max, min);
      KeepSorted(r, Output(trace, max, min));
    }
  }

  lemma {:induction false} KeepSorted(r: Region, s: seq<Inst>)
    ensures Sorted(s) ==> Sorted(Keep(r, s))
    ensures forall i :: 0 <= i < |Keep(r, s)| ==> Keep(r, s)[i] in s
  {
    if s != [] { KeepSorted(r, s[..|s| - 1]); }
  }

  /** Which instructions are printed: those of the trace inside every bound that is set and,
      on request, only those that retired; each as often as it arrived. */
  lemma PrintedInRegion(trace: seq<Inst>, max: nat, min: nat, r: Region, x: Inst)
    ensures multiset(Keep(r, Output(trace, max, min)))[x]
         == if && (r.snStart > 0 ==> r.snStart <= x.sn) && (r.snStop > 0 ==> x.sn <= r.snStop)
               && (r.tickStart > 0 ==> r.tickStart <= x.fetch) && (r.tickStop > 0 ==> x.fetch <= r.tickStop)
               && (r.onlyCommitted ==> x.retire != 0)
            then multiset(trace)[x] else 0
  {
    OutputPermutes(trace, max, min);
    KeepCounts(r, Output(trace, max, min), x);
  }

  lemma {:induction false} KeepCounts(r: Region, s: seq<Inst>, x: Inst)
    ensures multiset(Keep(r, s))[x] == if Kept(r, x) then multiset(s)[x] else 0
  {
    if s != [] {
      KeepCounts(r, s[..|s| - 1], x);
      assert s == s[..|s| - 1] + [s[|s| - 1]];
    }
  }

  /** The instructions with one sequence number, in order. */
  function SameSn(k: int, s: seq<Inst>): seq<Inst> {
    if s == [] then [] else SameSn(k, s[..|s| - 1]) + if s[|s| - 1].sn == k then [s[|s| - 1]] else []
  }

  lemma SameSnNext(k: int, s: seq<Inst>, x: Inst)
    ensures SameSn(k, s + [x]) == SameSn(k, s) + if x.sn == k then [x] else []
  {
    assert (s + [x])[..|s|] == s;
  }

  lemma {:induction false} SameSnAppend(k: int, a: seq<Inst>, b: seq<Inst>)
    ensures SameSn(k, a + b) == SameSn(k, a) + SameSn(k, b)
  {
    if b == [] {
      assert a + b == a;
    } else {
      SameSnAppend(k, a, b[..|b| - 1]);
      assert (a + b)[..|a + b| - 1] == a + b[..|b| - 1];
    }
  }

  lemma {:induction false} InsertStable(k: int, s: seq<Inst>, x: Inst)
    requires Sorted(s)
    ensures SameSn(k, Insert(s, x)) == SameSn(k, s) + if x.sn == k then [x] else []
  {
    if s == [] || s[|s| - 1].sn <= x.sn {
      SameSnNext(k, s, x);
    } else {
      var front, last := s[..|s| - 1], s[|s| - 1];
      InsertStable(k, front, x);
      SameSnNext(k, Insert(front, x), last);
      SwapUnequal(SameSn(k, front), k, x, last);
    }
  }

  lemma SwapUnequal(s: seq<Inst>, k: int, x: Inst, last: Inst)
    requires x.sn != last.sn
    ensures
      var a, b := if x.sn == k then [x] else [], if last.sn == k then [last] else [];
      s + a + b == s + b + a
  {}

  lemma {:induction false} SortStable(k: int, s: seq<Inst>)
    ensures SameSn(k, SortBySn(s)) == SameSn(k, s)
  {
    if s != [] {
      SortStable(k, s[..|s| - 1]);
      InsertStable(k, SortBySn(s[..|s| - 1]), s[|s| - 1]);
    }
  }

  lemma CutStable(k: int, popped: seq<Inst>, s: seq<Inst>, n: nat)
    requires n <= |s|
    ensures SameSn(k, popped + s[..n]) + SameSn(k, s[n..]) == SameSn(k, popped) + SameSn(k, s)
  {
    SameSnAppend(k, popped, s[..n]);
    SameSnAppend(k, s[..n], s[n..]);
    assert s[..n] + s[n..] == s;
    Associate(SameSn(k, popped), SameSn(k, s[..n]), SameSn(k, s[n..]));
  }

  lemma Associate(a: seq<Inst>, b: seq<Inst>, c: seq<Inst>)
    ensures (a + b) + c == a + (b + c)
  {}

  lemma QueueStable(k: int, max: nat, min: nat, popped: seq<Inst>, queue: seq<Inst>, x: Inst)
    ensures
      var p := Queue(max, min, popped, queue, x);
      SameSn(k, p.0) + SameSn(k, p.1) == (SameSn(k, popped) + SameSn(k, queue)) + if x.sn == k then [x] else []
  {
    var q := queue + [x];
    SameSnNext(k, queue, x);
    Associate(SameSn(k, popped), SameSn(k, queue), if x.sn == k then [x] else []);
    if |q| > max {
      SortStable(k, q);
      CutStable(k, popped, SortBySn(q), Excess(|q|, min));
    }
  }

  lemma {:induction false} AfterStable(k: int, trace: seq<Inst>, i: nat, max: nat, min: nat)
    requires i <= |trace|
    ensures SameSn(k, After(trace, i, max, min).0) + SameSn(k, After(trace, i, max, min).1) == SameSn(k, trace[..i])
  {
    if i > 0 {
      AfterStable(k, trace, i - 1, max, min);
      var p := After(trace, i - 1, max, min);
      QueueStable(k, max, min, p.0, p.1, trace[i - 1]);
      FirstArrivals(k, trace, i);
    }
  }

  lemma FirstArrivals(k: int, trace: seq<Inst>, i: nat)
    requires 0 < i <= |trace|
    ensures SameSn(k, trace[..i]) == SameSn(k, trace[..i - 1]) + if trace[i - 1].sn == k then [trace[i - 1]] else []
  {
    assert trace[..i] == trace[..i - 1] + [trace[i - 1]];
    SameSnNext(k, trace[..i - 1], trace[i - 1]);
  }

  /** For any trace and thresholds, instructions with the same sequence number leave in the
      order in which they arrived. */
  lemma EqualNumbersStay(k: int, trace: seq<Inst>, max: nat, min: nat)
    ensures SameSn(k, Output(trace, max, min)) == SameSn(k, trace)
  {
    var (popped, queue) := After(trace, |trace|, max, min);
    AfterStable(k, trace, |trace|, max, min);
    assert trace[..|trace|] == trace;
    SameSnAppend(k, popped, SortBySn(queue));
    SortStable(k, queue);
  }

  lemma {:induction false} QueueStays(i: nat, max: nat, min: nat)
    ensures QueueLen(i, max, min) == i || QueueLen(i, max, min) >= min
  {
    if i > 0 { QueueStays(i - 1, max, min); }
  }

  /** In particular an instruction out of order by at most `min` places is on time,
      whatever the maximum is. */
  lemma NearlyInOrder(trace: seq<Inst>, i: nat, max: nat, min: nat)
    requires i < |trace| && LargerBefore(trace, i) <= min
    ensures OnTime(trace, i, max, min)
  {
    var n := LastCut(i, max, min);
    QueueStays(n, max, min);
    assert trace[..i] == trace[..n] + trace[n..i];
    CountSplit(Larger(trace[i].sn), trace[..n], trace[n..i]);
  }

  /** That is not needed: while nothing has been cut off the queue, any order comes out sorted. */
  lemma SortsWithoutCut() returns (trace: seq<Inst>)
    ensures |trace| == 2 && LargerBefore(trace, 1) > 0
    ensures Sorted(Output(trace, 5, 0))
  {
    trace := [Inst(2, 0, 0), Inst(1, 0, 0)];
    assert trace[..1][1..] == [] && trace[..0] == [];
    forall i | 0 <= i < 2 ensures OnTime(trace, i, 5, 0) {
      assert LastCut(0, 5, 0) == 0 && LastCut(1, 5, 0) == 0;
    }
    OnTimeMeansSorted(trace, 5, 0);
  }
}
