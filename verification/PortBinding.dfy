/** ConfigManager.bind_ports of gem5/configs/example/read_config.py: from a list holding
    every connection in both directions, choose the ones to make so that each port's
    bindings happen in index order. */
module PortBinding {

  datatype PortName = PortName(owner: string, port: string)
  datatype Port = Port(name: PortName, index: nat)
  datatype Connection = Connection(from: Port, to: Port)

  function Reverse(c: Connection): Connection { Connection(c.to, c.from) }

  // ----- sorted(connections) -----

  predicate LessString(a: string, b: string) {
    if a == [] then b != [] else b != [] && (a[0] < b[0] || (a[0] == b[0] && LessString(a[1..], b[1..])))
  }

  /** PortConnection.__cmp__ orders by object name, port name and index. */
  predicate LessPort(a: Port, b: Port) {
    || LessString(a.name.owner, b.name.owner)
    || (a.name.owner == b.name.owner
        && (LessString(a.name.port, b.name.port) || (a.name.port == b.name.port && a.index < b.index)))
  }

  predicate LessConnection(a: Connection, b: Connection) {
    LessPort(a.from, b.from) || (a.from == b.from && LessPort(a.to, b.to))
  }

  function InsertSorted(s: seq<Connection>, c: Connection): (r: seq<Connection>)
    ensures |r| == |s| + 1 && forall x :: x in r <==> x in s || x == c
    ensures Distinct(s) && c !in s ==> Distinct(r)
  {
    if s == [] || !LessConnection(c, s[|s| - 1]) then s + [c]
    else
      var r := InsertSorted(s[..|s| - 1], c);
      assert s == s[..|s| - 1] + [s[|s| - 1]];
      assert c !in s ==> c !in s[..|s| - 1];
      assert Distinct(s) && c !in s ==> s[|s| - 1] !in r;
      r + [s[|s| - 1]]
  }

  function SortConnections(s: seq<Connection>): (r: seq<Connection>)
    ensures |r| == |s| && forall x :: x in r <==> x in s
    ensures Distinct(s) ==> Distinct(r)
  {
    if s == [] then []
    else
      assert s == s[..|s| - 1] + [s[|s| - 1]];
      InsertSorted(SortConnections(s[..|s| - 1]), s[|s| - 1])
  }

  predicate Ordered(s: seq<Connection>) { forall i :: 0 < i < |s| ==> !LessConnection(s[i], s[i - 1]) }

  lemma {:induction false} LessStringOneWay(a: string, b: string)
    requires LessString(a, b)
    ensures !LessString(b, a)
  {
    if a != [] && a[0] == b[0] { LessStringOneWay(a[1..], b[1..]); }
  }

  lemma LessPortOneWay(a: Port, b: Port)
    requires LessPort(a, b)
    ensures !LessPort(b, a)
  {
    if LessString(a.name.owner, b.name.owner) { LessStringOneWay(a.name.owner, b.name.owner); }
    if LessString(b.name.owner, a.name.owner) { LessStringOneWay(b.name.owner, a.name.owner); }
    if LessString(a.name.port, b.name.port) { LessStringOneWay(a.name.port, b.name.port); }
  }

  lemma LessOneWay(a: Connection, b: Connection)
    requires LessConnection(a, b)
    ensures !LessConnection(b, a)
  {
    if LessPort(a.from, b.from) { LessPortOneWay(a.from, b.from); } else { LessPortOneWay(a.to, b.to); }
    if LessPort(b.from, a.from) { LessPortOneWay(b.from, a.from); }
  }

  lemma {:induction false} InsertOrders(s: seq<Connection>, c: Connection)
    requires Ordered(s)
    ensures Ordered(InsertSorted(s, c))
    ensures InsertSorted(s, c)[|s|] == c || (s != [] && InsertSorted(s, c)[|s|] == s[|s| - 1])
  {
    if s != [] && LessConnection(c, s[|s| - 1]) {
      InsertOrders(s[..|s| - 1], c);
      LessOneWay(c, s[|s| - 1]);
    }
  }

  /** The list is walked in order of the from-port, then of the to-port. */
  lemma {:induction false} SortOrders(s: seq<Connection>)
    ensures Ordered(SortConnections(s))
    ensures Ordered(s) ==> SortConnections(s) == s
  {
    if s != [] {
      SortOrders(s[..|s| - 1]);
      InsertOrders(SortConnections(s[..|s| - 1]), s[|s| - 1]);
    }
  }

  /** a and b agree up to k, where a has a smaller character or ends first. */
  predicate FirstDiffer(a: string, b: string, k: nat) {
    k <= |a| && k < |b| && a[..k] == b[..k] && (k == |a| || a[k] < b[k])
  }

  lemma SameHead(a: string, b: string, k: nat)
    requires FirstDiffer(a, b, k)
    ensures k > 0 ==> a != [] && a[0] == b[0]
  {
    if k > 0 { assert a[..k][0] == b[..k][0]; }
  }

  /** Names compare as Python strings do: at the first place where they differ. */
  lemma {:induction false} LessStringIs(a: string, b: string)
    ensures LessString(a, b) <==> exists k :: FirstDiffer(a, b, k)
  {
    if a == [] || b == [] || a[0] != b[0] {
      if LessString(a, b) { assert FirstDiffer(a, b, 0); }
      forall k: nat | FirstDiffer(a, b, k) ensures k == 0 { SameHead(a, b, k); }
    } else {
      LessStringIs(a[1..], b[1..]);
      if k: nat :| FirstDiffer(a[1..], b[1..], k) {
        assert a[..k + 1] == [a[0]] + a[1..][..k] && b[..k + 1] == [b[0]] + b[1..][..k];
        assert FirstDiffer(a, b, k + 1);
      }
      if k: nat :| FirstDiffer(a, b, k) {
        assert k > 0 && a[1..][..k - 1] == a[..k][1..] && b[1..][..k - 1] == b[..k][1..];
        assert FirstDiffer(a[1..], b[1..], k - 1);
      }
    }
  }

  lemma {:induction false} LessStringTotal(a: string, b: string)
    ensures a == b || LessString(a, b) || LessString(b, a)
  {
    if a != [] && b != [] && a[0] == b[0] {
      LessStringTotal(a[1..], b[1..]);
      assert a == [a[0]] + a[1..] && b == [b[0]] + b[1..];
    }
  }

  lemma {:induction false} LessStringTransitive(a: string, b: string, c: string)
    requires LessString(a, b) && LessString(b, c)
    ensures LessString(a, c)
  {
    if a != [] && a[0] == b[0] == c[0] { LessStringTransitive(a[1..], b[1..], c[1..]); }
  }

  lemma LessPortTransitive(a: Port, b: Port, c: Port)
    requires LessPort(a, b) && LessPort(b, c)
    ensures LessPort(a, c)
  {
    var x, y, z := a.name, b.name, c.name;
    if LessString(x.owner, y.owner) && LessString(y.owner, z.owner) { LessStringTransitive(x.owner, y.owner, z.owner); }
    if LessString(x.port, y.port) && LessString(y.port, z.port) { LessStringTransitive(x.port, y.port, z.port); }
  }

  lemma LessPortTotal(a: Port, b: Port)
    ensures a == b || LessPort(a, b) || LessPort(b, a)
  {
    LessStringTotal(a.name.owner, b.name.owner);
    LessStringTotal(a.name.port, b.name.port);
  }

  /** Two ports of one object: the names decide, whatever the indices are, and the indices
      only between the connections of one port. */
  lemma PortsOfOneObject(owner: string, p: string, i: nat, q: string, j: nat)
    ensures LessPort(Port(PortName(owner, p), i), Port(PortName(owner, q), j))
       <==> if p == q then i < j else exists k :: FirstDiffer(p, q, k)
    ensures LessPort(Port(PortName(owner, "dcache_port"), i), Port(PortName(owner, "icache_port"), j))
  {
    if LessString(owner, owner) { LessStringOneWay(owner, owner); }
    if LessString(p, p) { LessStringOneWay(p, p); }
    LessStringIs(p, q);
  }

  /** The walk meets the connections in increasing order. */
  lemma {:induction false} SortedThroughout(s: seq<Connection>, i: nat, j: nat)
    requires i < j < |s|
    ensures
      var r := SortConnections(s);
      r[i] == r[j] || LessPort(r[i].from, r[j].from) || (r[i].from == r[j].from && LessPort(r[i].to, r[j].to))
  {
    var r := SortConnections(s);
    SortOrders(s);
    assert !LessConnection(r[j], r[j - 1]);
    LessPortTotal(r[j].from, r[j - 1].from);
    LessPortTotal(r[j].to, r[j - 1].to);
    if i < j - 1 {
      SortedThroughout(s, i, j - 1);
      LessTransitive(r[i], r[j - 1], r[j]);
    }
  }

  lemma LessTransitive(a: Connection, b: Connection, c: Connection)
    requires a == b || LessConnection(a, b)
    requires b == c || LessConnection(b, c)
    ensures a == c || LessConnection(a, c)
  {
    if LessPort(a.from, b.from) && LessPort(b.from, c.from) { LessPortTransitive(a.from, b.from, c.from); }
    if LessPort(a.to, b.to) && LessPort(b.to, c.to) { LessPortTransitive(a.to, b.to, c.to); }
  }

  predicate Distinct(s: seq<Connection>) { forall i, j :: 0 <= i < j < |s| ==> s[i] != s[j] }

  // ----- the loop -----

  datatype Result = Bound(made: seq<Connection>) | MissingPort | CannotOrder

  datatype Progress = Progress(indices: map<PortName, nat>, made: seq<Connection>)

  predicate Correct(indices: map<PortName, nat>, p: Port) { p.name in indices && indices[p.name] == p.index }

  function Bump(indices: map<PortName, nat>, p: Port): map<PortName, nat>
    requires p.name in indices
  {
    indices[p.name := indices[p.name] + 1]
  }

  /** One connection of the sorted list. */
  function Consider(st: Progress, c: Connection): Progress {
    if Correct(st.indices, c.from) && Correct(st.indices, c.to)
    then Progress(Bump(Bump(st.indices, c.from), c.to), st.made + [c])
    else st
  }

  function ConsiderAll(st: Progress, order: seq<Connection>): Progress {
    if order == [] then st else Consider(ConsiderAll(st, order[..|order| - 1]), order[|order| - 1])
  }

  function FromNames(connections: seq<Connection>): set<PortName> { set c | c in connections :: c.from.name }

  function Start(connections: seq<Connection>): Progress {
    Progress(map n | n in FromNames(connections) :: 0, [])
  }

  /** The connections bind_ports chooses. */
  function Made(connections: seq<Connection>): seq<Connection> {
    ConsiderAll(Start(connections), SortConnections(connections)).made
  }

  predicate Accepts(connections: seq<Connection>) { 2 * |Made(connections)| == |connections| }

  /** The i-th connection of the walk is due at its source, and its target is no source. */
  predicate MissesPort(connections: seq<Connection>, order: seq<Connection>, i: nat)
    requires i < |order|
  {
    && order[i].to.name !in FromNames(connections)
    && Correct(ConsiderAll(Start(connections), order[..i]).indices, order[i].from)
  }

  method BindPorts(connections: seq<Connection>) returns (r: Result)
    ensures r.MissingPort? <==> MissesSome(connections, SortConnections(connections))
    ensures !r.MissingPort? ==> (if Accepts(connections) then r == Bound(Made(connections)) else r == CannotOrder)
  {
    var order := SortConnections(connections);
    var missing, made := ChooseConnections(connections, order);
    r := if missing then MissingPort else if 2 * |made| == |connections| then Bound(made) else CannotOrder;
  }

  predicate MissesSome(connections: seq<Connection>, order: seq<Connection>) {
    exists i :: 0 <= i < |order| && MissesPort(connections, order, i)
  }

  method ChooseConnections(connections: seq<Connection>, order: seq<Connection>) returns (missing: bool, made: seq<Connection>)
    requires forall c :: c in order ==> c in connections
    ensures missing <==> MissesSome(connections, order)
    ensures !missing ==> made == ConsiderAll(Start(connections), order).made
  {
    var indices := StartIndices(connections);
    made := [];
    var i := 0;
    ghost var st := Start(connections);
    while i < |order|
      invariant 0 <= i <= |order|
      invariant indices == st.indices && made == st.made && st == ConsiderAll(Start(connections), order[..i])
      invariant forall k :: 0 <= k < i ==> !MissesPort(connections, order, k)
    {
      var c := order[i];
      WalkStep(connections, order, i, st);
      if indices[c.from.name] == c.from.index {
        if c.to.name !in indices {
          assert MissesPort(connections, order, i);
          return true, made;
        }
        if indices[c.to.name] == c.to.index {
          made := made + [c];
          indices := Bump(Bump(indices, c.from), c.to);
        }
      }
      i, st := i + 1, Consider(st, c);
    }
    assert order[..i] == order;
    missing := false;
  }

  /** What the loop knows at its i-th connection. */
  lemma WalkStep(connections: seq<Connection>, order: seq<Connection>, i: nat, st: Progress)
    requires i < |order| && (forall c :: c in order ==> c in connections)
    requires st == ConsiderAll(Start(connections), order[..i])
    ensures order[i].from.name in st.indices
    ensures MissesPort(connections, order, i) <==> order[i].to.name !in st.indices && Correct(st.indices, order[i].from)
    ensures ConsiderAll(Start(connections), order[..i + 1]) == Consider(st, order[i])
  {
    ConsiderNext(Start(connections), order, i);
    ConsiderKeeps(Start(connections), order[..i]);
    assert order[i] in connections;
  }

  /** A symmetric list never misses a port. */
  lemma SymmetricMissesNothing(connections: seq<Connection>, i: nat)
    requires Symmetric(connections) && i < |connections|
    ensures !MissesPort(connections, SortConnections(connections), i)
  {
    var c := SortConnections(connections)[i];
    assert c in SortConnections(connections) && Reverse(c) in connections;
    assert Reverse(c).from.name in FromNames(connections);
  }

  method StartIndices(connections: seq<Connection>) returns (indices: map<PortName, nat>)
    ensures indices == Start(connections).indices
  {
    indices := map[];
    var i := 0;
    while i < |connections|
      invariant 0 <= i <= |connections|
      invariant indices == Start(connections[..i]).indices
    {
      indices := indices[connections[i].from.name := 0];
      assert connections[..i + 1] == connections[..i] + [connections[i]];
      i := i + 1;
    }
    assert connections[..i] == connections;
  }

  lemma ConsiderNext(st: Progress, order: seq<Connection>, i: nat)
    requires i < |order|
    ensures ConsiderAll(st, order[..i + 1]) == Consider(ConsiderAll(st, order[..i]), order[i])
  {
    assert order[..i + 1][..i] == order[..i];
  }

  lemma {:induction false} ConsiderKeeps(st: Progress, order: seq<Connection>)
    ensures ConsiderAll(st, order).indices.Keys == st.indices.Keys
    ensures forall c :: c in ConsiderAll(st, order).made ==> c in st.made || c in order
  {
    if order != [] { ConsiderKeeps(st, order[..|order| - 1]); }
  }

  // ----- what the caller promises, and what a binding should be -----

  predicate Symmetric(connections: seq<Connection>) {
    forall c :: c in connections ==> Reverse(c) in connections
  }

  predicate NoLoops(connections: seq<Connection>) { forall c :: c in connections ==> c.from != c.to }

  /** The indices bound at port `n`, in the order of the bindings. */
  function IndicesAt(made: seq<Connection>, n: PortName): seq<nat> {
    if made == [] then []
    else
      var c := made[|made| - 1];
      IndicesAt(made[..|made| - 1], n)
      + (if c.from.name == n then [c.from.index] else [])
      + (if c.to.name == n then [c.to.index] else [])
  }

  /** 0, 1, 2, ... */
  predicate InOrder(s: seq<nat>) { forall i :: 0 <= i < |s| ==> s[i] == i }

  ghost predicate BindingInv(st: Progress) {
    && forall n :: n in st.indices ==> |IndicesAt(st.made, n)| == st.indices[n] && InOrder(IndicesAt(st.made, n))
  }

  lemma ConsiderBinds(st: Progress, c: Connection)
    requires BindingInv(st) && c.from != c.to
    ensures BindingInv(Consider(st, c))
  {
    var st' := Consider(st, c);
    if st' != st {
      assert st'.made[..|st.made|] == st.made;
      assert c.from.name != c.to.name;
    }
  }

  lemma {:induction false} ConsiderAllBinds(st: Progress, order: seq<Connection>)
    requires BindingInv(st) && NoLoops(order)
    ensures BindingInv(ConsiderAll(st, order))
  {
    if order != [] {
      ConsiderAllBinds(st, order[..|order| - 1]);
      ConsiderBinds(ConsiderAll(st, order[..|order| - 1]), order[|order| - 1]);
    }
  }

  /** A bound port is never bound again: its index has been passed. */
  lemma {:induction false} BoundIsPassed(made: seq<Connection>, c: Connection, p: Port)
    requires c in made && (p == c.from || p == c.to)
    ensures p.index in IndicesAt(made, p.name)
  {
    var last := made[|made| - 1];
    if last != c {
      assert c in made[..|made| - 1];
      BoundIsPassed(made[..|made| - 1], c, p);
    }
  }

  predicate Touches(c: Connection, p: Port) { c.from == p || c.to == p }

  /** No two of the made connections share a port. */
  predicate PortsDisjoint(made: seq<Connection>) {
    forall i, j :: 0 <= i < j < |made| ==> !Touches(made[j], made[i].from) && !Touches(made[j], made[i].to)
  }

  lemma ConsiderDisjoint(st: Progress, c: Connection)
    requires BindingInv(st) && PortsDisjoint(st.made)
    ensures PortsDisjoint(Consider(st, c).made)
  {
    var st' := Consider(st, c);
    if st' != st {
      forall i | 0 <= i < |st.made| ensures !Touches(c, st.made[i].from) && !Touches(c, st.made[i].to) {
        var m := st.made[i];
        BoundIsPassed(st.made, m, m.from);
        BoundIsPassed(st.made, m, m.to);
      }
    }
  }

  lemma {:induction false} ConsiderAllDisjoint(st: Progress, order: seq<Connection>)
    requires BindingInv(st) && PortsDisjoint(st.made) && NoLoops(order)
    ensures PortsDisjoint(ConsiderAll(st, order).made)
  {
    if order != [] {
      ConsiderAllDisjoint(st, order[..|order| - 1]);
      ConsiderAllBinds(st, order[..|order| - 1]);
      ConsiderDisjoint(ConsiderAll(st, order[..|order| - 1]), order[|order| - 1]);
    }
  }

  // ----- both directions of every made connection -----

  function ToSet(s: seq<Connection>): set<Connection> { set c | c in s }
  function Reversed(s: seq<Connection>): set<Connection> { set c | c in s :: Reverse(c) }

  lemma {:induction false} SizeOfDistinct(s: seq<Connection>)
    requires Distinct(s)
    ensures |ToSet(s)| == |s| && |Reversed(s)| == |s|
  {
    if s != [] {
      var front, last := s[..|s| - 1], s[|s| - 1];
      SizeOfDistinct(front);
      assert s == front + [last];
      assert ToSet(s) == ToSet(front) + {last} && last !in ToSet(front);
      assert Reversed(s) == Reversed(front) + {Reverse(last)};
      assert Reverse(last) !in Reversed(front) by {
        forall c | c in front ensures Reverse(c) != Reverse(last) { assert Reverse(Reverse(c)) == c; }
      }
    }
  }

  lemma SubsetOfSameSize(a: set<Connection>, b: set<Connection>)
    requires a <= b && |a| >= |b|
    ensures a == b
  {
    assert b == a + (b - a);
    assert |b| == |a| + |b - a|;
  }

  lemma SizeOfUnion(a: set<Connection>, b: set<Connection>)
    ensures |a + b| + |a * b| == |a| + |b|
  {
    assert a + b == a + (b - a) && b == (a * b) + (b - a);
  }

  /** Exactly one direction of every connection is made, once. */
  predicate EachPairOnce(connections: seq<Connection>, made: seq<Connection>) {
    && Distinct(made) && (forall c :: c in made ==> c in connections)
    && (forall c :: c in connections ==> c in made || Reverse(c) in made)
    && forall c :: c in made && Reverse(c) in made ==> c == Reverse(c)
  }

  lemma DisjointMeansDistinct(made: seq<Connection>)
    requires PortsDisjoint(made)
    ensures Distinct(made)
    ensures forall c :: c in made && Reverse(c) in made ==> c == Reverse(c)
  {
    forall c | c in made && Reverse(c) in made ensures c == Reverse(c) {
      var i :| 0 <= i < |made| && made[i] == c;
      var j :| 0 <= j < |made| && made[j] == Reverse(c);
    }
  }

  /** Half as many bindings as connections, none of them sharing a port, and no
      connection of a port with itself: then every pair is bound. */
  lemma HalfIsAll(connections: seq<Connection>, made: seq<Connection>)
    requires Distinct(connections) && Symmetric(connections) && NoLoops(connections)
    requires PortsDisjoint(made) && 2 * |made| == |connections| && forall c :: c in made ==> c in connections
    ensures EachPairOnce(connections, made)
  {
    DisjointMeansDistinct(made);
    SizeOfDistinct(made);
    SizeOfDistinct(connections);
    var a, b := ToSet(made), Reversed(made);
    forall c | c in made ensures Reverse(c) !in made {
      assert c in connections && c.from != c.to;
    }
    forall c | c in b ensures c !in a {
      var d :| d in made && Reverse(d) == c;
    }
    assert a * b == {};
    SizeOfUnion(a, b);
    assert a + b <= ToSet(connections);
    SubsetOfSameSize(a + b, ToSet(connections));
    forall c | c in connections ensures c in made || Reverse(c) in made {
      assert c in a + b;
      if c in b {
        var d :| d in made && Reverse(d) == c;
        assert Reverse(c) == d;
      }
    }
  }

  /** A self-connection fills only one place in the list, so half the list is then too
      few bindings for all the pairs. */
  lemma LoopLeavesPairUnbound(connections: seq<Connection>, made: seq<Connection>)
    requires Distinct(connections) && 2 * |made| == |connections| && EachPairOnce(connections, made)
    ensures NoLoops(connections)
  {
    SizeOfDistinct(made);
    SizeOfDistinct(connections);
    var a, b := ToSet(made), Reversed(made);
    SizeOfUnion(a, b);
    assert ToSet(connections) <= a + b by {
      forall c | c in connections ensures c in a + b {
        if c !in made { assert Reverse(Reverse(c)) == c && Reverse(c) in made; }
      }
    }
    SetsNest(ToSet(connections), a + b);
    assert |a * b| == 0;
    forall c | c in connections ensures c.from != c.to {
      assert c.from == c.to ==> c == Reverse(c);
      assert c in made && c == Reverse(c) ==> c in a * b;
    }
  }

  lemma SetsNest(a: set<Connection>, b: set<Connection>)
    requires a <= b
    ensures |a| <= |b|
  {
    assert b == a + (b - a);
  }

  /** Whenever bind_ports accepts a symmetric, duplicate-free list: each unordered pair is
      bound exactly once if and only if no port is connected to itself, and then the
      bindings at every port are made in index order 0, 1, 2, ... */
  lemma BindPortsCorrect(connections: seq<Connection>)
    requires Distinct(connections) && Symmetric(connections)
    ensures Accepts(connections) ==> (EachPairOnce(connections, Made(connections)) <==> NoLoops(connections))
    ensures Accepts(connections) && NoLoops(connections) ==> forall n :: InOrder(IndicesAt(Made(connections), n))
  {
    if Accepts(connections) { AcceptedIsCorrect(connections, Made(connections)); }
  }

  lemma AcceptedIsCorrect(connections: seq<Connection>, made: seq<Connection>)
    requires Distinct(connections) && Symmetric(connections) && made == Made(connections) && 2 * |made| == |connections|
    ensures EachPairOnce(connections, made) <==> NoLoops(connections)
    ensures NoLoops(connections) ==> forall n :: InOrder(IndicesAt(made, n))
  {
    var st, order := Start(connections), SortConnections(connections);
    ConsiderKeeps(st, order);
    if NoLoops(connections) {
      ConsiderAllBinds(st, order);
      ConsiderAllDisjoint(st, order);
      HalfIsAll(connections, made);
      forall n ensures InOrder(IndicesAt(made, n)) {
        if n !in st.indices { NothingBoundAt(made, connections, n); }
      }
    }
    if EachPairOnce(connections, made) { LoopLeavesPairUnbound(connections, made); }
  }

  lemma {:induction false} NothingBoundAt(made: seq<Connection>, connections: seq<Connection>, n: PortName)
    requires Symmetric(connections) && n !in FromNames(connections) && forall c :: c in made ==> c in connections
    ensures IndicesAt(made, n) == []
  {
    if made != [] {
      var last := made[|made| - 1];
      assert last in connections && Reverse(last) in connections;
      NothingBoundAt(made[..|made| - 1], connections, n);
    }
  }

  // ----- the walk finds a plan whenever there is one -----

  /** Some of the connections of `order`, in the same order. */
  predicate Subsequence(plan: seq<Connection>, order: seq<Connection>) {
    || plan == []
    || (order != [] && Subsequence(plan, order[..|order| - 1]))
    || (order != [] && plan[|plan| - 1] == order[|order| - 1]
        && Subsequence(plan[..|plan| - 1], order[..|order| - 1]))
  }

  /** Each pair once, and every port from index 0 upwards. */
  ghost predicate Binds(connections: seq<Connection>, plan: seq<Connection>) {
    EachPairOnce(connections, plan) && forall n :: InOrder(IndicesAt(plan, n))
  }

  lemma {:induction false} MadeIsSubsequence(st: Progress, order: seq<Connection>)
    requires st.made == []
    ensures Subsequence(ConsiderAll(st, order).made, order)
  {
    if order != [] {
      MadeIsSubsequence(st, order[..|order| - 1]);
      var before := ConsiderAll(st, order[..|order| - 1]).made;
      assert (before + [order[|order| - 1]])[..|before|] == before;
    }
  }

  lemma {:induction false} IndexHasConnection(made: seq<Connection>, p: Port) returns (c: Connection)
    requires p.index in IndicesAt(made, p.name)
    ensures c in made && Touches(c, p)
  {
    c := made[|made| - 1];
    if !Touches(c, p) {
      c := IndexHasConnection(made[..|made| - 1], p);
    }
  }

  /** Index order at every port rules out binding a port twice. */
  lemma {:induction false} InOrderMeansDisjoint(plan: seq<Connection>)
    requires forall n :: InOrder(IndicesAt(plan, n))
    ensures PortsDisjoint(plan)
  {
    if plan != [] {
      var front, last := plan[..|plan| - 1], plan[|plan| - 1];
      forall n ensures InOrder(IndicesAt(front, n)) { FrontInOrder(plan, n); }
      InOrderMeansDisjoint(front);
      forall i | 0 <= i < |front| ensures !Touches(last, plan[i].from) && !Touches(last, plan[i].to) {
        NotTouchedAgain(plan, front[i], front[i].from);
        NotTouchedAgain(plan, front[i], front[i].to);
      }
    }
  }

  lemma FrontInOrder(plan: seq<Connection>, n: PortName)
    requires plan != [] && InOrder(IndicesAt(plan, n))
    ensures InOrder(IndicesAt(plan[..|plan| - 1], n))
  {
    var front := IndicesAt(plan[..|plan| - 1], n);
    forall i | 0 <= i < |front| ensures front[i] == i { assert IndicesAt(plan, n)[i] == front[i]; }
  }

  /** The index the last connection binds at a port is the number bound there before it. */
  lemma LastIndex(plan: seq<Connection>, p: Port)
    requires plan != [] && Touches(plan[|plan| - 1], p) && InOrder(IndicesAt(plan, p.name))
    ensures p.index >= |IndicesAt(plan[..|plan| - 1], p.name)|
    ensures plan[|plan| - 1].from.name != plan[|plan| - 1].to.name ==> p.index == |IndicesAt(plan[..|plan| - 1], p.name)|
  {
    var c, front, all := plan[|plan| - 1], IndicesAt(plan[..|plan| - 1], p.name), IndicesAt(plan, p.name);
    assert all[|front|] == |front|;
    if c.from.name == c.to.name { assert all[|front| + 1] == |front| + 1; }
  }

  lemma NotTouchedAgain(plan: seq<Connection>, c: Connection, p: Port)
    requires plan != [] && c in plan[..|plan| - 1] && Touches(c, p) && InOrder(IndicesAt(plan, p.name))
    ensures !Touches(plan[|plan| - 1], p)
  {
    BoundIsPassed(plan[..|plan| - 1], c, p);
    FrontInOrder(plan, p.name);
    if Touches(plan[|plan| - 1], p) { LastIndex(plan, p); }
  }

  /** With a plan for all pairs, a port belongs to one pair only. */
  lemma OnePairPerPort(connections: seq<Connection>, plan: seq<Connection>, c: Connection, d: Connection, p: Port)
    requires EachPairOnce(connections, plan) && PortsDisjoint(plan)
    requires c in connections && d in connections && Touches(c, p) && Touches(d, p)
    ensures d == c || d == Reverse(c)
  {
    var x := if c in plan then c else Reverse(c);
    var y := if d in plan then d else Reverse(d);
    var i :| 0 <= i < |plan| && plan[i] == x;
    var j :| 0 <= j < |plan| && plan[j] == y;
    assert Touches(x, p) && Touches(y, p);
    assert i == j;
  }

  predicate Covered(c: Connection, made: seq<Connection>) { c in made || Reverse(c) in made }

  /** Everything bound at a port in `plan` is bound there in `made`. */
  lemma CoveredIndices(plan: seq<Connection>, made: seq<Connection>, p: Port)
    requires p.index in IndicesAt(plan, p.name) && forall c :: c in plan ==> Covered(c, made)
    ensures p.index in IndicesAt(made, p.name)
  {
    var c := IndexHasConnection(plan, p);
    assert Covered(c, made);
    BoundIsPassed(made, if c in made then c else Reverse(c), p);
  }

  /** At a port of an unbound pair whose turn it is in the plan, the walk is neither behind
      the plan nor ahead of it. */
  lemma PortIsReady(connections: seq<Connection>, whole: seq<Connection>, plan: seq<Connection>, st: Progress, c: Connection, p: Port)
    requires Binds(connections, whole) && BindingInv(st) && p.name in st.indices
    requires plan != [] && plan[|plan| - 1] == c && c.from.name != c.to.name && InOrder(IndicesAt(plan, p.name))
    requires forall d :: d in plan[..|plan| - 1] ==> Covered(d, st.made)
    requires c in connections && Touches(c, p) && !Covered(c, st.made) && forall d :: d in st.made ==> d in connections
    ensures Correct(st.indices, p)
  {
    LastIndex(plan, p);
    FrontInOrder(plan, p.name);
    NotBehind(plan[..|plan| - 1], st, p);
    if st.indices[p.name] > p.index {
      assert IndicesAt(st.made, p.name)[p.index] == p.index;
      var d := IndexHasConnection(st.made, p);
      InOrderMeansDisjoint(whole);
      OnePairPerPort(connections, whole, c, d, p);
    }
  }

  lemma NotBehind(front: seq<Connection>, st: Progress, p: Port)
    requires BindingInv(st) && p.name in st.indices && forall d :: d in front ==> Covered(d, st.made)
    requires InOrder(IndicesAt(front, p.name)) && p.index == |IndicesAt(front, p.name)|
    ensures st.indices[p.name] >= p.index
  {
    if p.index > 0 {
      assert IndicesAt(front, p.name)[p.index - 1] == p.index - 1;
      CoveredIndices(front, st.made, Port(p.name, p.index - 1));
    }
  }

  predicate NamesDiffer(connections: seq<Connection>) { forall c :: c in connections ==> c.from.name != c.to.name }

  /** The walk never falls behind a plan that works. */
  lemma {:induction false} KeepsUp(connections: seq<Connection>, whole: seq<Connection>, order: seq<Connection>, plan: seq<Connection>)
    requires Symmetric(connections) && NamesDiffer(connections) && Binds(connections, whole)
    requires (forall c :: c in order ==> c in connections) && Subsequence(plan, order)
    requires forall n :: InOrder(IndicesAt(plan, n))
    ensures forall c :: c in plan ==> Covered(c, ConsiderAll(Start(connections), order).made)
    decreases |order|
  {
    if plan != [] {
      var order', c := order[..|order| - 1], order[|order| - 1];
      var st, st' := ConsiderAll(Start(connections), order'), ConsiderAll(Start(connections), order);
      assert c in order && forall d :: d in order' ==> d in order;
      if Subsequence(plan, order') {
        KeepsUp(connections, whole, order', plan);
        forall d | d in plan ensures Covered(d, st'.made) { assert Covered(d, st.made); }
      } else {
        var front := plan[..|plan| - 1];
        forall n ensures InOrder(IndicesAt(front, n)) { FrontInOrder(plan, n); }
        KeepsUp(connections, whole, order', front);
        WalkTakes(connections, whole, order', plan, c);
        forall d | d in plan ensures Covered(d, st'.made) {
          if d != c { assert d in front && Covered(d, st.made); }
        }
      }
    }
  }

  lemma WalkTakes(connections: seq<Connection>, whole: seq<Connection>, order': seq<Connection>, plan: seq<Connection>, c: Connection)
    requires Symmetric(connections) && NamesDiffer(connections) && Binds(connections, whole)
    requires (forall d :: d in order' ==> d in connections) && c in connections
    requires plan != [] && plan[|plan| - 1] == c && forall n :: InOrder(IndicesAt(plan, n))
    requires forall d :: d in plan[..|plan| - 1] ==> Covered(d, ConsiderAll(Start(connections), order').made)
    ensures Covered(c, Consider(ConsiderAll(Start(connections), order'), c).made)
  {
    var st0 := Start(connections);
    var st := ConsiderAll(st0, order');
    if !Covered(c, st.made) {
      ConsiderKeeps(st0, order');
      ConsiderAllBinds(st0, order');
      assert Reverse(c) in connections && c.from.name in st.indices && c.to.name in st.indices;
      PortIsReady(connections, whole, plan, st, c, c.from);
      PortIsReady(connections, whole, plan, st, c, c.to);
    }
  }

  lemma {:induction false} MadeNamesDiffer(st: Progress, order: seq<Connection>)
    requires NamesDiffer(st.made) && NoLoops(order)
    ensures NamesDiffer(ConsiderAll(st, order).made)
  {
    if order != [] {
      MadeNamesDiffer(st, order[..|order| - 1]);
      assert order[|order| - 1] in order;
    }
  }

  lemma OnceEachIsHalf(connections: seq<Connection>, made: seq<Connection>)
    requires Distinct(connections) && NoLoops(connections) && Symmetric(connections) && EachPairOnce(connections, made)
    ensures 2 * |made| == |connections|
  {
    SizeOfDistinct(made);
    SizeOfDistinct(connections);
    var a, b := ToSet(made), Reversed(made);
    SizeOfUnion(a, b);
    forall c | c in made ensures Reverse(c) !in made {
      assert c in connections && c.from != c.to;
    }
    forall c | c in b ensures c !in a {
      var d :| d in made && Reverse(d) == c;
    }
    assert a * b == {};
    assert a + b == ToSet(connections) by {
      forall c | c in connections ensures c in a + b {
        if c !in made { assert Reverse(Reverse(c)) == c && Reverse(c) in made; }
      }
    }
  }

  /** When bind_ports accepts. For a symmetric, duplicate-free list without self-connections:
      it accepts if and only if no connection joins two indices of one port and some choice
      of directions, walked in sorted order, would bind each pair once and every port from
      index 0 upwards. */
  lemma AcceptsWheneverPossible(connections: seq<Connection>)
    requires Distinct(connections) && Symmetric(connections) && NoLoops(connections)
    ensures Accepts(connections) <==>
            NamesDiffer(connections) && exists plan :: Subsequence(plan, SortConnections(connections)) && Binds(connections, plan)
  {
    var st, order := Start(connections), SortConnections(connections);
    var made := Made(connections);
    ConsiderKeeps(st, order);
    if Accepts(connections) {
      AcceptedIsCorrect(connections, made);
      MadeIsSubsequence(st, order);
      MadeNamesDiffer(st, order);
      forall c | c in connections ensures c.from.name != c.to.name {
        assert c in made || Reverse(c) in made;
      }
      assert Binds(connections, made);
    }
    if NamesDiffer(connections) && exists plan :: Subsequence(plan, order) && Binds(connections, plan) {
      var plan :| Subsequence(plan, order) && Binds(connections, plan);
      KeepsUp(connections, plan, order, plan);
      ConsiderAllDisjoint(st, order);
      DisjointMeansDistinct(made);
      forall c | c in connections ensures c in made || Reverse(c) in made {
        assert c in plan || Reverse(c) in plan;
        assert Covered(c, made) || Covered(Reverse(c), made);
      }
      OnceEachIsHalf(connections, made);
    }
  }

  function P(owner: string, index: nat): Port { Port(PortName(owner, "p"), index) }

  /** a.p[0] - d.p[1], a.p[1] - c.p[0] and d.p[0] - e.p[0], in both directions and sorted. */
  const Wiring: seq<Connection> := [
    Connection(P("a", 0), P("d", 1)), Connection(P("a", 1), P("c", 0)), Connection(P("c", 0), P("a", 1)),
    Connection(P("d", 0), P("e", 0)), Connection(P("d", 1), P("a", 0)), Connection(P("e", 0), P("d", 0))]

  lemma Ascending(i: nat)
    requires 0 < i < 6
    ensures !LessConnection(Wiring[i], Wiring[i - 1])
  {
    assert LessString("a", "c") && LessString("c", "d") && LessString("d", "e");
    LessOneWay(Wiring[i - 1], Wiring[i]);
  }

  lemma WiringIsSorted()
    ensures SortConnections(Wiring) == Wiring
  {
    forall i | 0 < i < |Wiring| ensures !LessConnection(Wiring[i], Wiring[i - 1]) { Ascending(i); }
    SortOrders(Wiring);
  }

  lemma StartOfWiring(i: nat)
    requires i < 6
    ensures Wiring[i].from.name in Start(Wiring).indices
  {
    assert Wiring[i] in Wiring;
  }

  lemma WalkHead()
    ensures ConsiderAll(Start(Wiring), Wiring[..3]) == Start(Wiring)
  {
    var st := Start(Wiring);
    assert ConsiderAll(st, Wiring[..0]) == st;
    StartOfWiring(0);
    StartOfWiring(3);
    ConsiderNext(st, Wiring, 0);
    ConsiderNext(st, Wiring, 1);
    ConsiderNext(st, Wiring, 2);
  }

  lemma WalkTail()
    ensures ConsiderAll(Start(Wiring), Wiring).made == [Wiring[3], Wiring[4]]
  {
    var st := Start(Wiring);
    WalkHead();
    StartOfWiring(0);
    StartOfWiring(3);
    StartOfWiring(5);
    ConsiderNext(st, Wiring, 3);
    ConsiderNext(st, Wiring, 4);
    ConsiderNext(st, Wiring, 5);
    assert Wiring[..6] == Wiring;
  }

  lemma WiringIsProper()
    ensures Distinct(Wiring) && Symmetric(Wiring) && NoLoops(Wiring)
  {
    forall c | c in Wiring ensures Reverse(c) in Wiring {
      assert Reverse(Wiring[0]) == Wiring[4] && Reverse(Wiring[1]) == Wiring[2] && Reverse(Wiring[3]) == Wiring[5];
    }
  }

  /** Being sorted does not make one direction of every pair bindable: this wiring can be
      bound with every port in index order, and bind_ports rejects it. */
  lemma RejectsBindableWiring()
    ensures Distinct(Wiring) && Symmetric(Wiring) && NoLoops(Wiring)
    ensures Binds(Wiring, [Wiring[3], Wiring[4], Wiring[1]])
    ensures !Accepts(Wiring)
  {
    WiringIsSorted();
    WalkTail();
    WiringIsProper();
    BindsWiring();
  }

  lemma BindsWiring()
    ensures Binds(Wiring, [Wiring[3], Wiring[4], Wiring[1]])
  {
    var plan := [Wiring[3], Wiring[4], Wiring[1]];
    forall n ensures InOrder(IndicesAt(plan, n)) {
      assert plan[..2] == [Wiring[3], Wiring[4]] && plan[..2][..1] == [Wiring[3]] && plan[..1][..0] == [];
      assert IndicesAt([Wiring[3]], n) == if n.owner == "d" && n.port == "p" then [0] else if n.owner == "e" && n.port == "p" then [0] else [];
    }
  }

  /** a.p[0] and b.p[0] connected to themselves, and c.p[0] - d.p[1] with no d.p[0]. */
  const Looped: seq<Connection> := [
    Connection(P("a", 0), P("a", 0)), Connection(P("b", 0), P("b", 0)),
    Connection(P("c", 0), P("d", 1)), Connection(P("d", 1), P("c", 0))]

  lemma LoopedIsSorted()
    ensures SortConnections(Looped) == Looped
  {
    forall i | 0 < i < |Looped| ensures !LessConnection(Looped[i], Looped[i - 1]) {
      assert LessString("a", "b") && LessString("b", "c") && LessString("c", "d");
      LessOneWay(Looped[i - 1], Looped[i]);
    }
    SortOrders(Looped);
  }

  lemma StartOfLooped(i: nat)
    requires i < 4
    ensures Looped[i].from.name in Start(Looped).indices
  {
    assert Looped[i] in Looped;
  }

  lemma WalkOfLooped()
    ensures ConsiderAll(Start(Looped), Looped).made == [Looped[0], Looped[1]]
  {
    var st := Start(Looped);
    assert ConsiderAll(st, Looped[..0]) == st;
    StartOfLooped(0);
    StartOfLooped(1);
    ConsiderNext(st, Looped, 0);
    ConsiderNext(st, Looped, 1);
    StartOfLooped(2);
    StartOfLooped(3);
    ConsiderNext(st, Looped, 2);
    ConsiderNext(st, Looped, 3);
    assert Looped[..4] == Looped;
  }

  /** Self-connections make the count right with a pair unbound: this list is accepted. */
  lemma AcceptsUnboundPair()
    ensures Distinct(Looped) && Symmetric(Looped) && Accepts(Looped)
    ensures Looped[2] in Looped && !Covered(Looped[2], Made(Looped))
  {
    LoopedIsSorted();
    WalkOfLooped();
    LoopedIsProper();
  }

  lemma LoopedIsProper()
    ensures Distinct(Looped) && Symmetric(Looped)
  {
    forall c | c in Looped ensures Reverse(c) in Looped {
      assert Reverse(Looped[0]) == Looped[0] && Reverse(Looped[1]) == Looped[1] && Reverse(Looped[2]) == Looped[3];
    }
  }
}
