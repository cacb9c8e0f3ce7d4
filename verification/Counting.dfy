/** Counting and summing over the threads of a machine: the arithmetic every
    protocol proof in this project shares. */
module Counting {

  /** How many elements of `s` satisfy `p`. */
  function CountIf<T>(p: T -> bool, s: seq<T>): (n: nat)
    ensures n <= |s|
  {
    if s == [] then 0 else (if p(s[0]) then 1 else 0) + CountIf(p, s[1..])
  }

  /** The total of `f` over `s`. */
  function Sum<T>(f: T -> nat, s: seq<T>): nat {
    if s == [] then 0 else f(s[0]) + Sum(f, s[1..])
  }

  /** One thread changes its local state: the count moves by that thread alone. */
  lemma {:induction false} CountUpdate<T>(p: T -> bool, s: seq<T>, i: nat, x: T)
    requires i < |s|
    ensures CountIf(p, s[i := x]) + (if p(s[i]) then 1 else 0) == CountIf(p, s) + (if p(x) then 1 else 0)
  {
    if i == 0 {
      assert s[0 := x][1..] == s[1..];
    } else {
      CountUpdate(p, s[1..], i - 1, x);
      assert s[i := x][1..] == s[1..][i - 1 := x];
    }
  }

  lemma {:induction false} SumUpdate<T>(f: T -> nat, s: seq<T>, i: nat, x: T)
    requires i < |s|
    ensures Sum(f, s[i := x]) + f(s[i]) == Sum(f, s) + f(x)
  {
    if i == 0 {
      assert s[0 := x][1..] == s[1..];
    } else {
      SumUpdate(f, s[1..], i - 1, x);
      assert s[i := x][1..] == s[1..][i - 1 := x];
    }
  }

  /** Counting one element further along. */
  lemma {:induction false} CountSnoc<T>(p: T -> bool, s: seq<T>, i: nat)
    requires i < |s|
    ensures CountIf(p, s[..i + 1]) == CountIf(p, s[..i]) + if p(s[i]) then 1 else 0
  {
    if i == 0 {
      assert s[..1][1..] == [] && s[..0] == [];
    } else {
      CountSnoc(p, s[1..], i - 1);
      assert s[..i + 1][1..] == s[1..][..i] && s[..i][1..] == s[1..][..i - 1];
    }
  }

  lemma {:induction false} CountNone<T>(p: T -> bool, s: seq<T>)
    requires forall i :: 0 <= i < |s| ==> !p(s[i])
    ensures CountIf(p, s) == 0
  {
    if s != [] { CountNone(p, s[1..]); }
  }

  lemma {:induction false} CountAll<T>(p: T -> bool, s: seq<T>)
    requires forall i :: 0 <= i < |s| ==> p(s[i])
    ensures CountIf(p, s) == |s|
  {
    if s != [] { CountAll(p, s[1..]); }
  }

  /** Two predicates that agree on every element of `s` count the same. */
  lemma {:induction false} CountAgree<T>(p: T -> bool, q: T -> bool, s: seq<T>)
    requires forall i :: 0 <= i < |s| ==> p(s[i]) == q(s[i])
    ensures CountIf(p, s) == CountIf(q, s)
  {
    if s != [] { CountAgree(p, q, s[1..]); }
  }

  /** A counted element that exists makes the count positive. */
  lemma {:induction false} CountHas<T>(p: T -> bool, s: seq<T>, i: nat)
    requires i < |s| && p(s[i])
    ensures CountIf(p, s) >= 1
  {
    if i > 0 { CountHas(p, s[1..], i - 1); }
  }

  /** Two different counted elements make the count at least two. */
  lemma {:induction false} CountHasTwo<T>(p: T -> bool, s: seq<T>, i: nat, j: nat)
    requires i < j < |s| && p(s[i]) && p(s[j])
    ensures CountIf(p, s) >= 2
  {
    if i == 0 { CountHas(p, s[1..], j - 1); } else { CountHasTwo(p, s[1..], i - 1, j - 1); }
  }

  /** A full count means every element is counted. */
  lemma {:induction false} CountFull<T>(p: T -> bool, s: seq<T>, i: nat)
    requires CountIf(p, s) == |s| && i < |s|
    ensures p(s[i])
  {
    if i > 0 { CountFull(p, s[1..], i - 1); }
  }

  /** A count below the length leaves an uncounted element. */
  lemma {:induction false} CountMissing<T>(p: T -> bool, s: seq<T>) returns (i: nat)
    requires CountIf(p, s) < |s|
    ensures i < |s| && !p(s[i])
  {
    if p(s[0]) {
      var j := CountMissing(p, s[1..]);
      i := j + 1;
    } else {
      i := 0;
    }
  }

  /** A positive count has a witness. */
  lemma {:induction false} CountWitness<T>(p: T -> bool, s: seq<T>) returns (i: nat)
    requires CountIf(p, s) > 0
    ensures i < |s| && p(s[i])
  {
    if p(s[0]) {
      i := 0;
    } else {
      var j := CountWitness(p, s[1..]);
      i := j + 1;
    }
  }

  /** A count that one element cannot make up alone has a witness elsewhere. */
  lemma OtherWitness<T>(p: T -> bool, s: seq<T>, i: nat) returns (j: nat)
    requires i < |s| && CountIf(p, s) > if p(s[i]) then 1 else 0
    ensures j < |s| && j != i && p(s[j])
  {
    if exists j :: 0 <= j < |s| && j != i && p(s[j]) {
      j :| 0 <= j < |s| && j != i && p(s[j]);
    } else {
      CountOnly(p, s, i);
      assert false;
    }
  }

  lemma {:induction false} CountOnly<T>(p: T -> bool, s: seq<T>, i: nat)
    requires i < |s| && forall j :: 0 <= j < |s| && j != i ==> !p(s[j])
    ensures CountIf(p, s) == if p(s[i]) then 1 else 0
  {
    if i == 0 { CountNone(p, s[1..]); } else { CountOnly(p, s[1..], i - 1); }
  }

  /** A positive sum has a positive term. */
  lemma {:induction false} SumWitness<T>(f: T -> nat, s: seq<T>) returns (i: nat)
    requires Sum(f, s) > 0
    ensures i < |s| && f(s[i]) > 0
  {
    if f(s[0]) > 0 {
      i := 0;
    } else {
      var j := SumWitness(f, s[1..]);
      i := j + 1;
    }
  }

  /** Every term is bounded by the sum. */
  lemma {:induction false} SumTerm<T>(f: T -> nat, s: seq<T>, i: nat)
    requires i < |s|
    ensures f(s[i]) <= Sum(f, s)
  {
    if i > 0 { SumTerm(f, s[1..], i - 1); }
  }

  lemma {:induction false} SumConst<T>(f: T -> nat, s: seq<T>, c: nat)
    requires forall i :: 0 <= i < |s| ==> f(s[i]) == c
    ensures Sum(f, s) == |s| * c
  {
    if s != [] { SumConst(f, s[1..], c); }
  }

  /** What one element adds to a count. */
  function One(b: bool): nat { if b then 1 else 0 }

  /** A sequence that falls at every step is no longer than its first element allows. */
  lemma {:induction false} Countdown(work: seq<nat>, i: nat)
    requires i < |work| && forall k :: 0 < k < |work| ==> Falls(work, k)
    ensures i + work[i] <= work[0]
  {
    if i > 0 {
      Countdown(work, i - 1);
      assert Falls(work, i);
    }
  }

  predicate Falls(work: seq<nat>, k: nat)
    requires 0 < k < |work|
  {
    work[k] < work[k - 1]
  }

  /** Repeated addition: what a loop that adds `a` to a cell `b` times leaves behind. */
  function Times(a: nat, b: nat): nat {
    if b == 0 then 0 else Times(a, b - 1) + a
  }

  lemma {:induction false} TimesIsProduct(a: nat, b: nat)
    ensures Times(a, b) == a * b
  {
    if b > 0 {
      TimesIsProduct(a, b - 1);
      assert a * b == a * (b - 1) + a;
    }
  }
}
