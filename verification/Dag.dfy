// The graph a pipeline's references form (src/booth_pipeline/model.py, web/src/graph.ts): paths, cycles, and what
// a saved structure must meet. An edge runs from a dependency to the reference that names it.
module Dag {
  import opened Basics

  datatype Position = Position(x: int, y: int)

  // taskVersion is None for "latest".
  datatype TaskRef = TaskRef(key: string, taskId: string, taskVersion: Option<nat>, dependsOn: seq<string>,
                             position: Position, paramOverrides: map<string, string>)

  function KeySeq(refs: seq<TaskRef>): seq<string> { seq(|refs|, i requires 0 <= i < |refs| => refs[i].key) }

  function Keys(refs: seq<TaskRef>): set<string> { set r | r in refs :: r.key }

  predicate Edge(refs: seq<TaskRef>, d: string, k: string) {
    exists r :: r in refs && r.key == k && d in r.dependsOn
  }

  ghost predicate IsPath(refs: seq<TaskRef>, p: seq<string>) {
    p != [] && forall i, j :: 0 <= i < j < |p| && j == i + 1 ==> Edge(refs, p[i], p[j])
  }

  ghost predicate Connects(refs: seq<TaskRef>, p: seq<string>, a: string, b: string) {
    IsPath(refs, p) && p[0] == a && p[|p| - 1] == b
  }

  // b is a, or downstream of a.
  ghost predicate Reaches(refs: seq<TaskRef>, a: string, b: string) { exists p :: Connects(refs, p, a, b) }

  ghost predicate OnCycle(refs: seq<TaskRef>, k: string) { exists p :: |p| >= 2 && Connects(refs, p, k, k) }

  ghost predicate Cyclic(refs: seq<TaskRef>) { exists k :: OnCycle(refs, k) }

  predicate DepsKnown(refs: seq<TaskRef>) { forall r, d :: r in refs && d in r.dependsOn ==> d in Keys(refs) }

  predicate DepsOnce(refs: seq<TaskRef>) { forall r :: r in refs ==> NoDup(r.dependsOn) }

  predicate NoSelf(refs: seq<TaskRef>) { forall r :: r in refs ==> r.key !in r.dependsOn }

  // Everything the server demands of a spec's structure but that it is not empty, which a draft may be.
  ghost predicate Sound(refs: seq<TaskRef>) {
    NoDup(KeySeq(refs)) && DepsOnce(refs) && NoSelf(refs) && DepsKnown(refs) && !Cyclic(refs)
  }

  // ---- paths ----

  lemma EdgeReaches(refs: seq<TaskRef>, a: string, b: string)
    requires Edge(refs, a, b)
    ensures Connects(refs, [a, b], a, b) && Reaches(refs, a, b)
  {
    assert Connects(refs, [a, b], a, b);
  }

  lemma SelfReaches(refs: seq<TaskRef>, a: string)
    ensures Reaches(refs, a, a)
  {
    assert Connects(refs, [a], a, a);
  }

  lemma Join(refs: seq<TaskRef>, p: seq<string>, q: seq<string>, a: string, b: string, c: string)
    requires Connects(refs, p, a, b) && Connects(refs, q, b, c)
    ensures Connects(refs, p + q[1..], a, c)
  {
    var pq := p + q[1..];
    forall i, j | 0 <= i < j < |pq| && j == i + 1 ensures Edge(refs, pq[i], pq[j]) {
      if j < |p| {
        assert Edge(refs, p[i], p[j]);
      } else {
        assert pq[i] == q[j - |p|] && pq[j] == q[j - |p| + 1];
      }
    }
  }

  lemma ReachesTransitive(refs: seq<TaskRef>, a: string, b: string, c: string)
    requires Reaches(refs, a, b) && Reaches(refs, b, c)
    ensures Reaches(refs, a, c)
  {
    var p :| Connects(refs, p, a, b);
    var q :| Connects(refs, q, b, c);
    Join(refs, p, q, a, b, c);
  }

  lemma Slice(refs: seq<TaskRef>, p: seq<string>, i: nat, j: nat)
    requires IsPath(refs, p) && i <= j < |p|
    ensures Connects(refs, p[i..j + 1], p[i], p[j])
  {
  }

  // Any path into b that is not trivial ends with an edge into b from something a reaches.
  lemma LastEdge(refs: seq<TaskRef>, a: string, b: string) returns (d: string)
    requires Reaches(refs, a, b) && a != b
    ensures Edge(refs, d, b) && Reaches(refs, a, d)
  {
    var p :| Connects(refs, p, a, b);
    d := p[|p| - 2];
    Slice(refs, p, 0, |p| - 2);
    assert Edge(refs, p[|p| - 2], p[|p| - 1]);
  }

  lemma EdgeIntoKey(refs: seq<TaskRef>, d: string, k: string)
    requires Edge(refs, d, k)
    ensures k in Keys(refs)
  {
  }

  // A cycle through an edge is the edge and a path back.
  lemma CycleFromBack(refs: seq<TaskRef>, a: string, b: string)
    requires Edge(refs, a, b) && Reaches(refs, b, a)
    ensures OnCycle(refs, a)
  {
    var p :| Connects(refs, p, b, a);
    EdgeReaches(refs, a, b);
    Join(refs, [a, b], p, a, b, a);
  }

  // A path that is longer than there are keys visits something twice.
  lemma LongPathMeetsCycle(refs: seq<TaskRef>, p: seq<string>)
    returns (c: string)
    requires IsPath(refs, p) && (forall x :: x in p ==> x in Keys(refs)) && |p| > |Keys(refs)|
    ensures OnCycle(refs, c) && Reaches(refs, c, p[|p| - 1]) && Reaches(refs, p[0], c)
  {
    var i, j := Pigeonhole(p, Keys(refs));
    c := p[i];
    Slice(refs, p, i, j);
    Slice(refs, p, i, |p| - 1);
    Slice(refs, p, 0, i);
  }

  // A ranking that grows along every edge rules cycles out.
  lemma {:induction false} RanksGrow(refs: seq<TaskRef>, rank: string -> int, p: seq<string>)
    requires IsPath(refs, p) && forall d, k :: Edge(refs, d, k) ==> rank(d) < rank(k)
    ensures rank(p[0]) + |p| - 1 <= rank(p[|p| - 1])
  {
    if |p| > 1 {
      Slice(refs, p, 0, |p| - 2);
      RanksGrow(refs, rank, p[..|p| - 1]);
      assert Edge(refs, p[|p| - 2], p[|p| - 1]);
    }
  }

  lemma RankedIsAcyclic(refs: seq<TaskRef>, rank: string -> int)
    requires forall d, k :: Edge(refs, d, k) ==> rank(d) < rank(k)
    ensures !Cyclic(refs)
  {
    if Cyclic(refs) {
      var k :| OnCycle(refs, k);
      var p :| |p| >= 2 && Connects(refs, p, k, k);
      RanksGrow(refs, rank, p);
    }
  }
}
