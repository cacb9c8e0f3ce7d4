/** Checkpoint migration of gem5/util/cpt_upgrader.py, with upgraders only: the
    resolution of forward dependencies, and the loop that applies the upgraders whose
    tags a checkpoint is missing. */
module CptUpgrader {

  datatype Tag = Tag(name: string)

  /** The depends and fwd_depends lists of one upgrader script. */
  datatype Upgrader = Upgrader(depends: seq<Tag>, fwdDepends: seq<Tag>)

  /** What each tag waits for; the lists are only ever searched, so sets stand for them. */
  type Deps = map<Tag, set<Tag>>

  // ----- load_all: resolve forward dependencies and audit -----

  predicate Distinct(s: seq<Tag>) { forall i, j :: 0 <= i < j < |s| ==> s[i] != s[j] }

  /** Every tag named anywhere is the tag of some upgrader. */
  predicate AllKnown(byTag: map<Tag, Upgrader>) {
    forall t :: t in byTag ==>
      && (forall d :: d in byTag[t].depends ==> d in byTag)
      && (forall d :: d in byTag[t].fwdDepends ==> d in byTag)
  }

  /** x must wait for d: x says so, or d says so of x. */
  predicate DependsOn(byTag: map<Tag, Upgrader>, x: Tag, d: Tag) {
    (x in byTag && d in byTag[x].depends) || (d in byTag && x in byTag[d].fwdDepends)
  }

  /** The dependencies known once the tags in `done` have been resolved. */
  ghost predicate Resolved(byTag: map<Tag, Upgrader>, deps: Deps, done: seq<Tag>) {
    && deps.Keys == byTag.Keys
    && forall x, d :: x in byTag ==>
         (d in deps[x] <==> d in byTag[x].depends || (d in done && d in byTag && x in byTag[d].fwdDepends))
  }

  /** The loop over Upgrader.by_tag in whatever order it is iterated: it succeeds exactly
      when every named tag exists, and then the lists hold exactly the dependencies. */
  method LoadAll(byTag: map<Tag, Upgrader>, order: seq<Tag>) returns (ok: bool, deps: Deps)
    requires forall t :: t in order <==> t in byTag
    ensures ok <==> AllKnown(byTag)
    ensures ok ==> deps.Keys == byTag.Keys && forall x, d :: x in byTag ==> (d in deps[x] <==> DependsOn(byTag, x, d))
  {
    deps := OwnDepends(byTag);
    ok := true;
    var i := 0;
    ghost var done: seq<Tag> := [];
    while i < |order| && ok
      invariant 0 <= i <= |order|
      invariant ok ==> done == order[..i] && Resolved(byTag, deps, done) && AllAudited(byTag, done)
      invariant !ok ==> !AllKnown(byTag)
    {
      var tag := order[i];
      assert tag in order;
      ok, deps := LoadOne(byTag, deps, done, tag);
      if ok {
        done := done + [tag];
      } else {
        NotAllKnown(byTag, tag);
      }
      i := i + 1;
    }
    if ok { AllResolved(byTag, deps, order, done); }
  }

  predicate AllAudited(byTag: map<Tag, Upgrader>, done: seq<Tag>) {
    forall k :: 0 <= k < |done| ==> Audited(byTag, done[k])
  }

  function OwnDepends(byTag: map<Tag, Upgrader>): (deps: Deps)
    ensures Resolved(byTag, deps, [])
  {
    map t | t in byTag :: set d | d in byTag[t].depends
  }

  lemma NotAllKnown(byTag: map<Tag, Upgrader>, tag: Tag)
    requires tag in byTag && !Audited(byTag, tag)
    ensures !AllKnown(byTag)
  {}

  /** One round: resolve the forward dependencies of a tag, then audit its own. */
  method LoadOne(byTag: map<Tag, Upgrader>, deps0: Deps, ghost done: seq<Tag>, tag: Tag) returns (ok: bool, deps: Deps)
    requires tag in byTag && Resolved(byTag, deps0, done)
    ensures ok <==> Audited(byTag, tag)
    ensures ok ==> Resolved(byTag, deps, done + [tag])
  {
    ok, deps := ResolveForward(byTag, deps0, done, tag);
    if ok {
      AuditMeans(byTag, deps, done + [tag], tag);
      ok := AuditDepends(byTag, deps[tag]);
    }
  }

  lemma AllResolved(byTag: map<Tag, Upgrader>, deps: Deps, order: seq<Tag>, done: seq<Tag>)
    requires (forall t :: t in order <==> t in byTag) && done == order[..|order|]
    requires Resolved(byTag, deps, done) && AllAudited(byTag, done)
    ensures AllKnown(byTag)
    ensures forall x, d :: x in byTag ==> (d in deps[x] <==> DependsOn(byTag, x, d))
  {
    assert done == order;
    forall t | t in byTag ensures Audited(byTag, t) {
      var k :| 0 <= k < |order| && order[k] == t;
    }
  }

  lemma AuditMeans(byTag: map<Tag, Upgrader>, deps: Deps, done: seq<Tag>, tag: Tag)
    requires tag in byTag && Resolved(byTag, deps, done)
    ensures deps[tag] <= byTag.Keys <==> forall d :: d in byTag[tag].depends ==> d in byTag
  {
    if forall d :: d in byTag[tag].depends ==> d in byTag {
      forall d | d in deps[tag] ensures d in byTag.Keys { }
    }
  }

  predicate Audited(byTag: map<Tag, Upgrader>, t: Tag) {
    && t in byTag
    && (forall d :: d in byTag[t].depends ==> d in byTag)
    && (forall d :: d in byTag[t].fwdDepends ==> d in byTag)
  }

  method ResolveForward(byTag: map<Tag, Upgrader>, deps0: Deps, ghost done: seq<Tag>, tag: Tag) returns (ok: bool, deps: Deps)
    requires tag in byTag && Resolved(byTag, deps0, done)
    ensures ok <==> forall d :: d in byTag[tag].fwdDepends ==> d in byTag
    ensures ok ==> Resolved(byTag, deps, done + [tag])
  {
    deps, ok := deps0, true;
    var fwd := byTag[tag].fwdDepends;
    var j := 0;
    while j < |fwd|
      invariant 0 <= j <= |fwd| && deps0.Keys == byTag.Keys
      invariant forall k :: 0 <= k < j ==> fwd[k] in byTag
      invariant Forwarded(byTag, deps0, deps, tag, fwd[..j])
    {
      if fwd[j] !in byTag {
        return false, deps;
      }
      ForwardedNext(byTag, deps0, deps, tag, fwd, j);
      deps := deps[fwd[j] := deps[fwd[j]] + {tag}];
      j := j + 1;
    }
    assert fwd[..j] == fwd;
    ResolvedNext(byTag, deps0, done, tag, deps);
  }

  /** The tags in `named` have been told to wait for `tag`. */
  ghost predicate Forwarded(byTag: map<Tag, Upgrader>, deps0: Deps, deps: Deps, tag: Tag, named: seq<Tag>)
    requires deps0.Keys == byTag.Keys
  {
    deps.Keys == byTag.Keys && forall x :: x in byTag ==> deps[x] == Appended(deps0[x], tag, x in named)
  }

  lemma ForwardedNext(byTag: map<Tag, Upgrader>, deps0: Deps, deps: Deps, tag: Tag, fwd: seq<Tag>, j: nat)
    requires deps0.Keys == byTag.Keys && j < |fwd| && fwd[j] in byTag && Forwarded(byTag, deps0, deps, tag, fwd[..j])
    ensures Forwarded(byTag, deps0, deps[fwd[j] := deps[fwd[j]] + {tag}], tag, fwd[..j + 1])
  {
    assert fwd[..j + 1] == fwd[..j] + [fwd[j]];
  }

  lemma ResolvedNext(byTag: map<Tag, Upgrader>, deps0: Deps, done: seq<Tag>, tag: Tag, deps: Deps)
    requires tag in byTag && Resolved(byTag, deps0, done)
    requires Forwarded(byTag, deps0, deps, tag, byTag[tag].fwdDepends)
    ensures Resolved(byTag, deps, done + [tag])
  {}

  function Appended(depends: set<Tag>, tag: Tag, named: bool): set<Tag> {
    if named then depends + {tag} else depends
  }

  method AuditDepends(byTag: map<Tag, Upgrader>, depends: set<Tag>) returns (ok: bool)
    ensures ok <==> depends <= byTag.Keys
  {
    var rest := depends;
    while rest != {}
      invariant rest <= depends && depends - rest <= byTag.Keys
      decreases rest
    {
      var dep :| dep in rest;
      if dep !in byTag {
        return false;
      }
      rest := rest - {dep};
    }
    return true;
  }

  // ----- process_file: apply what is missing -----

  /** Upgrader.ready. */
  predicate ReadyFor(depends: set<Tag>, tags: set<Tag>) { depends <= tags }

  /** A chain of dependencies among `missing` that closes on itself. */
  predicate IsCycle(deps: Deps, missing: set<Tag>, c: seq<Tag>) {
    && c != []
    && (forall i :: 0 <= i < |c| ==> c[i] in missing && c[i] in deps)
    && (forall i :: 0 <= i < |c| - 1 ==> c[i + 1] in deps[c[i]])
    && c[0] in deps[c[|c| - 1]]
  }

  ghost predicate HasCycle(deps: Deps, missing: set<Tag>) { exists c :: IsCycle(deps, missing, c) }

  /** Every upgrader in the log runs after all it depends on, and none runs twice. */
  predicate GoodLog(deps: Deps, tags0: set<Tag>, log: seq<Tag>) {
    Distinct(log) && forall k :: 0 <= k < |log| ==> InTurn(deps, tags0, log, k)
  }

  predicate InTurn(deps: Deps, tags0: set<Tag>, log: seq<Tag>, k: nat)
    requires k < |log|
  {
    log[k] in deps && forall d :: d in deps[log[k]] ==> d in tags0 || d in log[..k]
  }

  /** The apply loop: it always stops. It aborts if and only if the missing tags contain
      a dependency cycle; otherwise it runs each missing tag's upgrader exactly once, each
      after all its dependencies, and leaves the same tags whatever the set order was. */
  method ProcessTags(deps: Deps, tags0: set<Tag>) returns (ok: bool, tags: set<Tag>, log: seq<Tag>)
    requires forall t, d :: t in deps && d in deps[t] ==> d in deps
    ensures ok <==> !HasCycle(deps, deps.Keys - tags0)
    ensures ok ==> tags == tags0 + deps.Keys && GoodLog(deps, tags0, log)
    ensures ok ==> forall t :: t in log <==> t in deps.Keys - tags0
  {
    var toApply := deps.Keys - tags0;
    tags, log := tags0, [];
    while toApply != {}
      invariant toApply == deps.Keys - tags && Applied(deps, tags0, tags, log)
      invariant forall c :: IsCycle(deps, deps.Keys - tags0, c) ==> Within(c, toApply)
      decreases toApply
    {
      var ready := set t | t in toApply && ReadyFor(deps[t], tags);
      if ready == {} {
        assert forall t :: t in toApply ==> t !in ready;
        NobodyReady(deps, tags, toApply);
        StuckHasCycle(deps, toApply, deps.Keys - tags0);
        return false, tags, log;
      }
      CyclesStay(deps, tags0, tags, toApply, ready);
      tags, log := RunUpgraders(deps, tags0, tags, log, ready);
      toApply := toApply - ready;
    }
    ok := true;
    assert deps.Keys <= tags by {
      assert deps.Keys == (deps.Keys - tags) + (deps.Keys * tags);
    }
    NoCycleLeft(deps, deps.Keys - tags0, toApply);
  }

  lemma NobodyReady(deps: Deps, tags: set<Tag>, toApply: set<Tag>)
    requires toApply == deps.Keys - tags && forall t :: t in toApply ==> !ReadyFor(deps[t], tags)
    requires forall t, d :: t in deps && d in deps[t] ==> d in deps
    ensures forall t :: t in toApply ==> WaitsInside(deps[t], toApply)
  {
    forall t | t in toApply ensures WaitsInside(deps[t], toApply) {
      var d :| d in deps[t] && d !in tags;
    }
  }

  predicate Within(c: seq<Tag>, s: set<Tag>) { forall i :: 0 <= i < |c| ==> c[i] in s }

  ghost predicate Applied(deps: Deps, tags0: set<Tag>, tags: set<Tag>, log: seq<Tag>) {
    && tags0 <= tags <= tags0 + deps.Keys && GoodLog(deps, tags0, log)
    && forall t :: t in log <==> t in tags && t !in tags0
  }

  /** One round: the ready upgraders in any order. */
  method RunUpgraders(deps: Deps, tags0: set<Tag>, before: set<Tag>, log0: seq<Tag>, ready: set<Tag>)
    returns (tags: set<Tag>, log: seq<Tag>)
    requires Applied(deps, tags0, before, log0)
    requires forall t :: t in ready ==> t in deps && t !in before && ReadyFor(deps[t], before)
    ensures tags == before + ready && Applied(deps, tags0, tags, log)
  {
    var rest := ready;
    tags, log := before, log0;
    while rest != {}
      invariant rest <= ready && tags == before + (ready - rest)
      invariant Applied(deps, tags0, tags, log)
      decreases rest
    {
      var tag :| tag in rest;
      LogNext(deps, tags0, tags, log, tag);
      tags, log := tags + {tag}, log + [tag];
      assert tags == before + (ready - (rest - {tag}));
      rest := rest - {tag};
    }
  }

  lemma LogNext(deps: Deps, tags0: set<Tag>, tags: set<Tag>, log: seq<Tag>, tag: Tag)
    requires Applied(deps, tags0, tags, log) && tag in deps && tag !in tags && ReadyFor(deps[tag], tags)
    ensures Applied(deps, tags0, tags + {tag}, log + [tag])
  {
    var log' := log + [tag];
    assert forall i :: 0 <= i < |log| ==> log[i] in log;
    forall k | 0 <= k < |log'| ensures InTurn(deps, tags0, log', k) {
      if k < |log| { assert InTurn(deps, tags0, log, k) && log'[..k] == log[..k]; } else { assert log'[..k] == log; }
    }
  }

  /** A tag on a cycle is never ready before the next one on it. */
  lemma CyclesStay(deps: Deps, tags0: set<Tag>, tags: set<Tag>, toApply: set<Tag>, ready: set<Tag>)
    requires toApply == deps.Keys - tags
    requires forall c :: IsCycle(deps, deps.Keys - tags0, c) ==> Within(c, toApply)
    requires forall t :: t in ready ==> t in deps && ReadyFor(deps[t], tags)
    ensures forall c :: IsCycle(deps, deps.Keys - tags0, c) ==> Within(c, toApply - ready)
  {
    forall c | IsCycle(deps, deps.Keys - tags0, c) ensures Within(c, toApply - ready) {
      assert Within(c, toApply);
      forall i | 0 <= i < |c| ensures c[i] in toApply - ready {
        var next := if i + 1 < |c| then i + 1 else 0;
        assert c[next] in deps[c[i]] && c[next] in toApply;
      }
    }
  }

  lemma NoCycleLeft(deps: Deps, missing: set<Tag>, left: set<Tag>)
    requires left == {} && forall c :: IsCycle(deps, missing, c) ==> Within(c, left)
    ensures !HasCycle(deps, missing)
  {
    forall c: seq<Tag> | c != [] ensures !Within(c, left) {
      assert c[0] !in left;
    }
  }

  // ----- a set in which everybody waits for somebody contains a cycle -----

  predicate Chain(deps: Deps, s: set<Tag>, p: seq<Tag>) {
    && p != []
    && (forall i :: 0 <= i < |p| ==> p[i] in s && p[i] in deps)
    && (forall i :: 0 <= i < |p| - 1 ==> p[i + 1] in deps[p[i]])
  }

  predicate WaitsInside(depends: set<Tag>, s: set<Tag>) { exists d :: d in depends && d in s }

  lemma StuckHasCycle(deps: Deps, stuck: set<Tag>, missing: set<Tag>)
    requires stuck != {} && stuck <= missing && stuck <= deps.Keys
    requires forall t :: t in stuck ==> WaitsInside(deps[t], stuck)
    ensures HasCycle(deps, missing)
  {
    var t :| t in stuck;
    WalkCloses(deps, stuck, missing, [t]);
  }

  /** Following unmet dependencies inside a finite set must come back to a tag already
      visited. */
  lemma WalkCloses(deps: Deps, stuck: set<Tag>, missing: set<Tag>, p: seq<Tag>)
    requires stuck <= missing && stuck <= deps.Keys
    requires forall t :: t in stuck ==> WaitsInside(deps[t], stuck)
    requires Chain(deps, stuck, p) && Distinct(p)
    ensures HasCycle(deps, missing)
    decreases |stuck| - |p|
  {
    var last := p[|p| - 1];
    var d :| d in deps[last] && d in stuck;
    if d in p {
      var k :| 0 <= k < |p| && p[k] == d;
      ClosesCycle(deps, stuck, missing, p, k);
    } else {
      var p' := p + [d];
      DistinctFits(p', stuck);
      WalkCloses(deps, stuck, missing, p');
    }
  }

  lemma ClosesCycle(deps: Deps, stuck: set<Tag>, missing: set<Tag>, p: seq<Tag>, k: nat)
    requires stuck <= missing && stuck <= deps.Keys && Chain(deps, stuck, p)
    requires k < |p| && p[k] in deps[p[|p| - 1]]
    ensures HasCycle(deps, missing)
  {
    assert IsCycle(deps, missing, p[k..]);
  }

  /** Distinct elements of a set are no more than the set. */
  lemma {:induction false} DistinctFits(p: seq<Tag>, s: set<Tag>)
    requires Distinct(p) && forall i :: 0 <= i < |p| ==> p[i] in s
    ensures |p| <= |s|
  {
    if p != [] {
      DistinctFits(p[..|p| - 1], s - {p[|p| - 1]});
    }
  }

  // ----- what the order of the upgraders means -----

  /** When two upgraders both run and one needs the other, every good log runs the
      needed one first. */
  lemma LogRespects(deps: Deps, tags0: set<Tag>, log: seq<Tag>, i: nat, j: nat)
    requires GoodLog(deps, tags0, log) && i < |log| && j < |log| && log[j] in deps
    requires log[i] in deps[log[j]] && log[i] !in tags0
    ensures i < j
  {
    assert InTurn(deps, tags0, log, j);
    var k :| 0 <= k < j && log[k] == log[i];
    assert k == i;
  }
}
