// Execution order (src/booth_pipeline/model.py): Kahn's algorithm over a spec's references, and the structure checks.
module Topology {
  import opened Basics
  import opened Dag

  function DepsOf(refs: seq<TaskRef>, k: string): (s: set<string>)
    ensures forall d :: d in s <==> Edge(refs, d, k)
  {
    set r, d | r in refs && r.key == k && d in r.dependsOn :: d
  }

  // [key] once for each time d is listed.
  function Listed(key: string, deps: seq<string>, d: string): seq<string> {
    if deps == [] then []
    else Listed(key, deps[..|deps| - 1], d) + if deps[|deps| - 1] == d then [key] else []
  }

  lemma ListedUpTo(key: string, deps: seq<string>, j: nat, d: string)
    requires j <= |deps|
    ensures Listed(key, deps[..0], d) == []
    ensures j < |deps| ==> Listed(key, deps[..j + 1], d) == Listed(key, deps[..j], d) + if deps[j] == d then [key] else []
  {
    if j < |deps| { assert deps[..j + 1][..j] == deps[..j]; }
  }

  // The references that name d as a dependency, in declaration order.
  function Dependents(refs: seq<TaskRef>, d: string): seq<string> {
    if refs == [] then []
    else Dependents(refs[..|refs| - 1], d) + Listed(refs[|refs| - 1].key, refs[|refs| - 1].dependsOn, d)
  }

  method AddDependents(out0: map<string, seq<string>>, r: TaskRef) returns (out: map<string, seq<string>>)
    ensures out == map d | d in out0 :: out0[d] + Listed(r.key, r.dependsOn, d)
  {
    hide Listed;
    forall d ensures Listed(r.key, r.dependsOn[..0], d) == [] { ListedUpTo(r.key, r.dependsOn, 0, d); }
    out := out0;
    for j := 0 to |r.dependsOn|
      invariant out.Keys == out0.Keys
      invariant forall d :: d in out ==> out[d] == out0[d] + Listed(r.key, r.dependsOn[..j], d)
    {
      forall d ensures Listed(r.key, r.dependsOn[..j + 1], d) == Listed(r.key, r.dependsOn[..j], d) + if r.dependsOn[j] == d then [r.key] else [] {
        ListedUpTo(r.key, r.dependsOn, j, d);
      }
      var d := r.dependsOn[j];
      if d in out {
        out := out[d := out[d] + [r.key]];
      }
    }
    assert r.dependsOn[..|r.dependsOn|] == r.dependsOn;
  }

  method Downstream(refs: seq<TaskRef>) returns (out: map<string, seq<string>>)
    ensures out == map d | d in Keys(refs) :: Dependents(refs, d)
  {
    out := map d | d in Keys(refs) :: [];
    for i := 0 to |refs|
      invariant out.Keys == Keys(refs)
      invariant forall d :: d in out ==> out[d] == Dependents(refs[..i], d)
    {
      out := AddDependents(out, refs[i]);
      assert refs[..i + 1][..i] == refs[..i];
    }
    assert refs[..|refs|] == refs;
  }

  lemma {:induction false} ListedMeans(key: string, deps: seq<string>, d: string)
    requires NoDup(deps)
    ensures Listed(key, deps, d) == if d in deps then [key] else []
  {
    if deps != [] {
      var n := |deps| - 1;
      ListedMeans(key, deps[..n], d);
      assert deps == deps[..n] + [deps[n]];
    }
  }

  // The position of a reference in the spec.
  function Place(refs: seq<TaskRef>, k: string): nat
    requires k in Keys(refs)
    ensures Place(refs, k) < |refs| && refs[Place(refs, k)].key == k
  {
    if refs[0].key == k then 0 else
      assert k in Keys(refs[1..]) by { var r :| r in refs && r.key == k; assert r in refs[1..]; }
      1 + Place(refs[1..], k)
  }

  lemma {:induction false} PlaceIs(refs: seq<TaskRef>, i: nat)
    requires NoDup(KeySeq(refs)) && i < |refs|
    ensures refs[i].key in Keys(refs) && Place(refs, refs[i].key) == i
  {
    assert refs[i] in refs;
    var j := Place(refs, refs[i].key);
    assert KeySeq(refs)[i] == KeySeq(refs)[j];
  }

  predicate Increasing(refs: seq<TaskRef>, s: seq<string>) {
    && (forall k :: k in s ==> k in Keys(refs))
    && forall i, j :: 0 <= i < j < |s| ==> Place(refs, s[i]) < Place(refs, s[j])
  }

  lemma DependentsStep(refs: seq<TaskRef>, n: nat, d: string)
    requires DepsOnce(refs) && 0 < n <= |refs|
    ensures Dependents(refs[..n], d) == Dependents(refs[..n - 1], d) + (if d in refs[n - 1].dependsOn then [refs[n - 1].key] else [])
  {
    assert refs[..n][..n - 1] == refs[..n - 1] && refs[..n][n - 1] == refs[n - 1];
    ListedMeans(refs[n - 1].key, refs[n - 1].dependsOn, d);
  }

  lemma {:induction false} DependentsIncrease(refs: seq<TaskRef>, n: nat, d: string)
    requires NoDup(KeySeq(refs)) && DepsOnce(refs) && n <= |refs|
    ensures var s := Dependents(refs[..n], d); Increasing(refs, s) && (forall k :: k in s ==> Place(refs, k) < n)
  {
    if n > 0 {
      DependentsIncrease(refs, n - 1, d);
      DependentsStep(refs, n, d);
      PlaceIs(refs, n - 1);
      hide Dependents, Place;
    }
  }

  // One of the first n references has key k and names d.
  predicate NamedBy(refs: seq<TaskRef>, n: nat, d: string, k: string)
    requires n <= |refs|
  {
    exists i :: 0 <= i < n && refs[i].key == k && d in refs[i].dependsOn
  }

  lemma NamedByNext(refs: seq<TaskRef>, n: nat, d: string, k: string)
    requires 0 < n <= |refs|
    ensures NamedBy(refs, n, d, k) <==> NamedBy(refs, n - 1, d, k) || (refs[n - 1].key == k && d in refs[n - 1].dependsOn)
  {
  }

  lemma DependentsNone(refs: seq<TaskRef>, d: string)
    ensures Dependents(refs[..0], d) == []
  {
  }

  lemma {:induction false} DependentsMembers(refs: seq<TaskRef>, n: nat, d: string, k: string)
    requires DepsOnce(refs) && n <= |refs|
    ensures k in Dependents(refs[..n], d) <==> NamedBy(refs, n, d, k)
  {
    hide Dependents, DepsOnce;
    if n == 0 {
      DependentsNone(refs, d);
    } else {
      hide NamedBy;
      DependentsMembers(refs, n - 1, d, k);
      DependentsStep(refs, n, d);
      NamedByNext(refs, n, d, k);
    }
  }

  // The dependents of d are exactly the references with an edge from it, each once, in declaration order.
  lemma DependentsAreEdges(refs: seq<TaskRef>, d: string)
    requires NoDup(KeySeq(refs)) && DepsOnce(refs)
    ensures Increasing(refs, Dependents(refs, d)) && NoDup(Dependents(refs, d))
    ensures forall k :: k in Dependents(refs, d) <==> Edge(refs, d, k)
  {
    DependentsIncrease(refs, |refs|, d);
    assert refs[..|refs|] == refs;
    forall k ensures k in Dependents(refs, d) <==> Edge(refs, d, k) {
      DependentsMembers(refs, |refs|, d, k);
      hide Dependents, Increasing;
    }
  }

  // ---- Kahn's algorithm ----

  // The last position in `order` of a member of `deps`, -1 if there is none.
  function LastIndex(order: seq<string>, deps: set<string>): (i: int)
    ensures -1 <= i < |order| && (i >= 0 ==> order[i] in deps)
    ensures forall j :: i < j < |order| ==> order[j] !in deps
  {
    if order == [] then -1
    else if order[|order| - 1] in deps then |order| - 1
    else LastIndex(order[..|order| - 1], deps)
  }

  // References run in the order in which their last dependency did, and in declaration order among equals.
  predicate TiesByDeclaration(refs: seq<TaskRef>, order: seq<string>, s: seq<string>) {
    && (forall k :: k in s ==> k in Keys(refs))
    && forall i, j :: 0 <= i < j < |s| ==> Before(refs, order, s[i], s[j])
  }

  predicate Before(refs: seq<TaskRef>, order: seq<string>, a: string, b: string)
    requires a in Keys(refs) && b in Keys(refs)
  {
    var x, y := LastIndex(order, DepsOf(refs, a)), LastIndex(order, DepsOf(refs, b));
    x < y || (x == y && Place(refs, a) < Place(refs, b))
  }

  predicate DepsFirst(refs: seq<TaskRef>, order: seq<string>) {
    forall i :: 0 <= i < |order| ==> DepsOf(refs, order[i]) <= Elems(order[..i])
  }

  // A permutation of the keys that runs every dependency before its dependents, ties broken by declaration order.
  predicate IsOrder(refs: seq<TaskRef>, order: seq<string>) {
    && NoDup(order) && Elems(order) == Keys(refs) && DepsFirst(refs, order)
    && TiesByDeclaration(refs, order, order)
  }

  function Unmet(refs: seq<TaskRef>, order: seq<string>, k: string): set<string> { DepsOf(refs, k) - Elems(order) }

  predicate Counts(refs: seq<TaskRef>, order: seq<string>, indeg: map<string, int>) {
    indeg.Keys == Keys(refs) && forall k :: k in indeg ==> indeg[k] == |Unmet(refs, order, k)|
  }

  // `s`, what is done or ready, is exactly what has no unmet dependency.
  predicate ReadyIsUnblocked(s: seq<string>, indeg: map<string, int>) {
    && NoDup(s)
    && (forall k :: k in s ==> k in indeg)
    && (forall k :: k in indeg ==> (indeg[k] == 0 <==> k in s))
  }

  // The loop's invariant; `s` is what is done followed by what is ready.
  predicate Kahn(refs: seq<TaskRef>, order: seq<string>, s: seq<string>, indeg: map<string, int>) {
    Counts(refs, order, indeg) && ReadyIsUnblocked(s, indeg) && DepsFirst(refs, order) && TiesByDeclaration(refs, order, s)
  }

  // Those of `s` for which one dependency was left.
  function Freed(s: seq<string>, indeg: map<string, int>): seq<string> {
    if s == [] then []
    else Freed(s[..|s| - 1], indeg) + if s[|s| - 1] in indeg && indeg[s[|s| - 1]] == 1 then [s[|s| - 1]] else []
  }

  // The inner loop: one dependency fewer for each of `down`, and what that frees becomes ready.
  method Release(down: seq<string>, indeg0: map<string, int>, ready0: seq<string>)
    returns (indeg: map<string, int>, ready: seq<string>)
    requires NoDup(down) && forall k :: k in down ==> k in indeg0
    ensures indeg == map k | k in indeg0 :: if k in down then indeg0[k] - 1 else indeg0[k]
    ensures ready == ready0 + Freed(down, indeg0)
  {
    indeg, ready := indeg0, ready0;
    for i := 0 to |down|
      invariant indeg.Keys == indeg0.Keys
      invariant forall j :: 0 <= j < i ==> indeg[down[j]] == indeg0[down[j]] - 1
      invariant forall j :: i <= j < |down| ==> indeg[down[j]] == indeg0[down[j]]
      invariant forall k :: k in indeg && k !in down ==> indeg[k] == indeg0[k]
      invariant ready == ready0 + Freed(down[..i], indeg0)
    {
      var k := down[i];
      assert down[..i + 1][..i] == down[..i];
      indeg := indeg[k := indeg[k] - 1];
      if indeg[k] == 0 {
        ready := ready + [k];
      }
    }
    assert down[..|down|] == down;
  }

  lemma {:induction false} FreedMembers(s: seq<string>, indeg: map<string, int>)
    ensures forall k :: k in Freed(s, indeg) <==> k in s && k in indeg && indeg[k] == 1
  {
    if s != [] {
      FreedMembers(s[..|s| - 1], indeg);
      assert s == s[..|s| - 1] + [s[|s| - 1]];
    }
  }

  lemma {:induction false} FreedIncreases(refs: seq<TaskRef>, s: seq<string>, indeg: map<string, int>)
    requires Increasing(refs, s)
    ensures Increasing(refs, Freed(s, indeg))
  {
    if s != [] {
      var n := |s| - 1;
      FreedIncreases(refs, s[..n], indeg);
      FreedMembers(s[..n], indeg);
      assert Increasing(refs, s[..n]);
      forall k | k in Freed(s[..n], indeg) ensures Place(refs, k) < Place(refs, s[n]) {
        var i :| 0 <= i < n && s[i] == k;
      }
      hide Place;
    }
  }

  lemma UnmetNext(refs: seq<TaskRef>, order: seq<string>, k: string, x: string)
    requires k !in order
    ensures |Unmet(refs, order + [k], x)| == |Unmet(refs, order, x)| - if k in DepsOf(refs, x) then 1 else 0
    ensures k in DepsOf(refs, x) ==> Unmet(refs, order, x) != {}
  {
    assert Unmet(refs, order + [k], x) == Unmet(refs, order, x) - {k};
  }

  lemma CountNext(refs: seq<TaskRef>, order: seq<string>, indeg: map<string, int>, k: string, x: string)
    requires NoDup(KeySeq(refs)) && DepsOnce(refs)
    requires Counts(refs, order, indeg) && k !in order && x in indeg
    ensures (if x in Dependents(refs, k) then indeg[x] - 1 else indeg[x]) == |Unmet(refs, order + [k], x)|
  {
    DependentsAreEdges(refs, k);
    UnmetNext(refs, order, k, x);
    hide Unmet, Dependents, Increasing, KeySeq, DepsOnce;
  }

  lemma CountsNext(refs: seq<TaskRef>, order: seq<string>, indeg: map<string, int>, k: string, indeg2: map<string, int>)
    requires NoDup(KeySeq(refs)) && DepsOnce(refs)
    requires Counts(refs, order, indeg) && k !in order
    requires indeg2 == map x | x in indeg :: if x in Dependents(refs, k) then indeg[x] - 1 else indeg[x]
    ensures Counts(refs, order + [k], indeg2)
  {
    hide Unmet, Dependents, KeySeq, DepsOnce;
    forall x | x in indeg2 ensures indeg2[x] == |Unmet(refs, order + [k], x)| {
      CountNext(refs, order, indeg, k, x);
    }
  }

  lemma DownIsUnmet(refs: seq<TaskRef>, order: seq<string>, indeg: map<string, int>, k: string, x: string)
    requires NoDup(KeySeq(refs)) && DepsOnce(refs)
    requires Counts(refs, order, indeg) && k !in order && x in Dependents(refs, k)
    ensures x in indeg && indeg[x] > 0
  {
    DependentsAreEdges(refs, k);
    EdgeIntoKey(refs, k, x);
    UnmetNext(refs, order, k, x);
  }

  lemma ReadyNext(refs: seq<TaskRef>, order: seq<string>, s: seq<string>, indeg: map<string, int>, k: string, indeg2: map<string, int>)
    requires NoDup(KeySeq(refs)) && DepsOnce(refs)
    requires Counts(refs, order, indeg) && ReadyIsUnblocked(s, indeg) && k !in order
    requires indeg2 == map x | x in indeg :: if x in Dependents(refs, k) then indeg[x] - 1 else indeg[x]
    ensures ReadyIsUnblocked(s + Freed(Dependents(refs, k), indeg), indeg2)
  {
    var down, freed := Dependents(refs, k), Freed(Dependents(refs, k), indeg);
    DependentsAreEdges(refs, k);
    FreedMembers(down, indeg);
    FreedIncreases(refs, down, indeg);
    IncreasingNoDup(refs, freed);
    forall x | x in down ensures x in indeg && indeg[x] > 0 {
      DownIsUnmet(refs, order, indeg, k, x);
    }
    UnblockedNext(s, down, freed, indeg, indeg2);
  }

  lemma UnblockedNext(s: seq<string>, down: seq<string>, freed: seq<string>, indeg: map<string, int>, indeg2: map<string, int>)
    requires NoDup(s) && NoDup(freed) && forall k :: k in s ==> k in indeg
    requires forall k :: k in indeg ==> (indeg[k] == 0 <==> k in s)
    requires forall k :: k in down ==> k in indeg && indeg[k] > 0
    requires forall k :: k in freed <==> k in down && k in indeg && indeg[k] == 1
    requires indeg2 == map x | x in indeg :: if x in down then indeg[x] - 1 else indeg[x]
    ensures NoDup(s + freed) && (forall k :: k in s + freed ==> k in indeg2)
    ensures forall k :: k in indeg2 ==> (indeg2[k] == 0 <==> k in s + freed)
  {
    NoDupConcat(s, freed);
  }

  lemma IncreasingNoDup(refs: seq<TaskRef>, s: seq<string>)
    requires Increasing(refs, s)
    ensures NoDup(s)
  {
  }

  lemma DepsFirstNext(refs: seq<TaskRef>, order: seq<string>, k: string)
    requires DepsFirst(refs, order) && Unmet(refs, order, k) == {}
    ensures DepsFirst(refs, order + [k])
  {
    var next := order + [k];
    forall d | d in DepsOf(refs, k) ensures d in Elems(order) { assert d !in Unmet(refs, order, k); }
    assert next[..|order|] == order;
    assert forall i :: 0 <= i < |order| ==> next[..i] == order[..i];
  }

  lemma TiesNext(refs: seq<TaskRef>, order: seq<string>, s: seq<string>, k: string, freed: seq<string>)
    requires TiesByDeclaration(refs, order, s) && Increasing(refs, freed)
    requires forall x :: x in s ==> k !in DepsOf(refs, x)
    requires forall x :: x in freed ==> k in DepsOf(refs, x)
    ensures TiesByDeclaration(refs, order + [k], s + freed)
  {
    var next, all := order + [k], s + freed;
    assert next[..|order|] == order;
    forall x | x in all ensures x in Keys(refs) { assert x in s || x in freed; }
    forall i, j | 0 <= i < j < |all| ensures Before(refs, next, all[i], all[j]) {
      if j < |s| {
        assert s[i] in s && s[j] in s && Before(refs, order, s[i], s[j]);
      } else {
        assert all[j] in freed;
        if i < |s| { assert all[i] in s; } else { assert all[i] in freed; }
      }
    }
  }

  lemma SettledMeansNoUnmet(refs: seq<TaskRef>, order: seq<string>, s: seq<string>, indeg: map<string, int>, x: string)
    requires Counts(refs, order, indeg) && ReadyIsUnblocked(s, indeg) && x in s
    ensures Unmet(refs, order, x) == {}
    ensures forall d :: d in DepsOf(refs, x) ==> d in order
  {
    assert indeg[x] == 0;
    forall d | d in DepsOf(refs, x) ensures d in order { assert d !in Unmet(refs, order, x); }
  }

  lemma TiesKept(refs: seq<TaskRef>, order: seq<string>, s: seq<string>, indeg: map<string, int>, k: string)
    requires NoDup(KeySeq(refs)) && DepsOnce(refs) && Kahn(refs, order, s, indeg) && k !in order
    ensures TiesByDeclaration(refs, order + [k], s + Freed(Dependents(refs, k), indeg))
  {
    var freed := Freed(Dependents(refs, k), indeg);
    forall x | x in s ensures k !in DepsOf(refs, x) {
      SettledMeansNoUnmet(refs, order, s, indeg, x);
    }
    DependentsAreEdges(refs, k);
    FreedMembers(Dependents(refs, k), indeg);
    FreedIncreases(refs, Dependents(refs, k), indeg);
    TiesNext(refs, order, s, k, freed);
  }

  lemma KahnNext(refs: seq<TaskRef>, order: seq<string>, s: seq<string>, indeg: map<string, int>, k: string, indeg2: map<string, int>)
    requires NoDup(KeySeq(refs)) && DepsOnce(refs)
    requires Kahn(refs, order, s, indeg) && k in s && k !in order
    requires indeg2 == map x | x in indeg :: if x in Dependents(refs, k) then indeg[x] - 1 else indeg[x]
    ensures Kahn(refs, order + [k], s + Freed(Dependents(refs, k), indeg), indeg2)
  {
    hide Counts, ReadyIsUnblocked, DepsFirst, Dependents, Freed, TiesByDeclaration;
    CountsNext(refs, order, indeg, k, indeg2);
    ReadyNext(refs, order, s, indeg, k, indeg2);
    SettledMeansNoUnmet(refs, order, s, indeg, k);
    DepsFirstNext(refs, order, k);
    TiesKept(refs, order, s, indeg, k);
  }

  // The first of what is ready is not done, and moving it over leaves the whole unchanged.
  lemma NextReady(order: seq<string>, ready: seq<string>, freed: seq<string>)
    requires NoDup(order + ready) && ready != []
    ensures ready[0] !in order && ready[0] in order + ready
    ensures order + ready + freed == (order + [ready[0]]) + (ready[1..] + freed)
    ensures Elems(order + [ready[0]]) == Elems(order) + {ready[0]}
  {
    assert (order + ready)[|order|] == ready[0];
    forall i | 0 <= i < |order| ensures order[i] != ready[0] {
      assert (order + ready)[i] == order[i];
    }
  }

  // The references that name no dependency, in declaration order.
  method Roots(refs: seq<TaskRef>, indeg: map<string, int>) returns (ready: seq<string>)
    requires NoDup(KeySeq(refs)) && indeg.Keys == Keys(refs)
    ensures Increasing(refs, ready) && forall k :: k in ready <==> k in indeg && indeg[k] == 0
  {
    ready := [];
    for i := 0 to |refs|
      invariant Increasing(refs, ready) && forall k :: k in ready ==> Place(refs, k) < i && indeg[k] == 0
      invariant forall j :: 0 <= j < i && indeg[refs[j].key] == 0 ==> refs[j].key in ready
    {
      PlaceIs(refs, i);
      hide Place;
      if indeg[refs[i].key] == 0 {
        ready := ready + [refs[i].key];
      }
    }
    forall k | k in indeg && indeg[k] == 0 ensures k in ready {
      assert refs[Place(refs, k)].key == k;
    }
  }

  lemma KahnStarts(refs: seq<TaskRef>, ready: seq<string>, indeg: map<string, int>)
    requires NoDup(KeySeq(refs)) && Increasing(refs, ready)
    requires indeg == map k | k in Keys(refs) :: |DepsOf(refs, k)|
    requires forall k :: k in ready <==> k in indeg && indeg[k] == 0
    ensures Kahn(refs, [], ready, indeg)
  {
    IncreasingNoDup(refs, ready);
    assert Elems<string>([]) == {};
    hide DepsOf, Place;
  }

  // A key no order can reach: on a cycle or downstream of one, or of a dependency that is not there.
  ghost predicate Blocked(refs: seq<TaskRef>, k: string) {
    exists a :: Reaches(refs, a, k) && (OnCycle(refs, a) || a !in Keys(refs))
  }

  // Kahn's algorithm. It succeeds exactly on acyclic specs whose dependencies are all there; what it raises names
  // exactly the blocked keys.
  method TopologicalOrder(refs: seq<TaskRef>) returns (r: Result<seq<string>, set<string>>)
    requires NoDup(KeySeq(refs)) && DepsOnce(refs)
    ensures r.Ok? <==> !Cyclic(refs) && DepsKnown(refs)
    ensures r.Ok? ==> IsOrder(refs, r.value)
    ensures r.Err? ==> r.error != {} && forall k :: k in r.error <==> k in Keys(refs) && Blocked(refs, k)
  {
    var indeg: map<string, int> := map k | k in Keys(refs) :: |DepsOf(refs, k)|;
    var down := Downstream(refs);
    var ready := Roots(refs, indeg);
    var order: seq<string> := [];
    KahnStarts(refs, ready, indeg);
    assert [] + ready == ready;
    hide *;
    while ready != []
      invariant Kahn(refs, order, order + ready, indeg)
      decreases Keys(refs) - Elems(order)
    {
      var k := ready[0];
      KahnFacts(refs, order, order + ready, indeg);
      NextReady(order, ready, Freed(Dependents(refs, k), indeg));
      DependentsInKeys(refs, k);
      KahnProgress(refs, order, k);
      var indeg2, ready2 := Release(down[k], indeg, ready[1..]);
      KahnNext(refs, order, order + ready, indeg, k, indeg2);
      order, indeg, ready := order + [k], indeg2, ready2;
    }
    assert order + ready == order;
    KahnEnds(refs, order, indeg);
    if |order| != |refs| {
      return Err(Keys(refs) - Elems(order));
    }
    r := Ok(order);
  }

  lemma KahnFacts(refs: seq<TaskRef>, order: seq<string>, s: seq<string>, indeg: map<string, int>)
    requires Kahn(refs, order, s, indeg)
    ensures NoDup(s) && indeg.Keys == Keys(refs) && forall k :: k in s ==> k in Keys(refs)
  {
  }

  lemma KahnProgress(refs: seq<TaskRef>, order: seq<string>, k: string)
    requires k in Keys(refs) && k !in order
    ensures Keys(refs) - Elems(order + [k]) < Keys(refs) - Elems(order)
  {
    assert k in Elems(order + [k]) && k in Keys(refs) - Elems(order);
    assert forall x :: x in Elems(order) ==> x in order + [k];
  }

  lemma DependentsInKeys(refs: seq<TaskRef>, k: string)
    requires NoDup(KeySeq(refs)) && DepsOnce(refs)
    ensures NoDup(Dependents(refs, k)) && forall x :: x in Dependents(refs, k) ==> x in Keys(refs)
  {
    DependentsAreEdges(refs, k);
  }

  lemma {:induction false} DoneComesLater(refs: seq<TaskRef>, order: seq<string>, p: seq<string>, i: nat) returns (j: nat)
    requires DepsFirst(refs, order) && IsPath(refs, p) && i < |order| && p[|p| - 1] == order[i]
    ensures j + |p| - 1 <= i && order[j] == p[0]
    decreases |p|
  {
    if |p| == 1 {
      j := i;
    } else {
      var d := p[|p| - 2];
      assert Edge(refs, d, order[i]);
      assert d in DepsOf(refs, order[i]);
      var m :| 0 <= m < i && order[m] == d;
      Slice(refs, p, 0, |p| - 2);
      j := DoneComesLater(refs, order, p[..|p| - 1], m);
    }
  }

  lemma DoneIsNotBlocked(refs: seq<TaskRef>, order: seq<string>, k: string)
    requires DepsFirst(refs, order) && NoDup(order) && k in order && forall x :: x in order ==> x in Keys(refs)
    ensures !Blocked(refs, k)
  {
    if Blocked(refs, k) {
      var i :| 0 <= i < |order| && order[i] == k;
      var a :| Reaches(refs, a, k) && (OnCycle(refs, a) || a !in Keys(refs));
      var p :| Connects(refs, p, a, k);
      var j := DoneComesLater(refs, order, p, i);
      var c :| |c| >= 2 && Connects(refs, c, a, a);
      var m := DoneComesLater(refs, order, c, j);
    }
  }

  // Backwards from a stuck key: a path of any length, unless a missing dependency ends it.
  lemma {:induction false} WalkBack(refs: seq<TaskRef>, order: seq<string>, k: string, n: nat) returns (p: seq<string>)
    requires k in Keys(refs) && k !in order
    requires forall x :: x in Keys(refs) && x !in order ==> Unmet(refs, order, x) != {}
    ensures p != [] && Connects(refs, p, p[0], k)
    ensures p[0] !in Keys(refs) || (|p| == n + 1 && forall x :: x in p ==> x in Keys(refs) && x !in order)
    decreases n
  {
    p := [k];
    if n > 0 {
      var d :| d in Unmet(refs, order, k);
      assert Edge(refs, d, k);
      EdgeReaches(refs, d, k);
      if d !in Keys(refs) {
        p := [d, k];
      } else {
        var q := WalkBack(refs, order, d, n - 1);
        Join(refs, q, [d, k], q[0], d, k);
        p := q + [d, k][1..];
      }
    }
  }

  lemma StuckIsBlocked(refs: seq<TaskRef>, order: seq<string>, k: string)
    requires k in Keys(refs) && k !in order
    requires forall x :: x in Keys(refs) && x !in order ==> Unmet(refs, order, x) != {}
    ensures Blocked(refs, k)
  {
    var p := WalkBack(refs, order, k, |Keys(refs)|);
    assert Reaches(refs, p[0], k);
    if p[0] in Keys(refs) {
      var c := LongPathMeetsCycle(refs, p);
    }
  }

  lemma NothingBlockedIff(refs: seq<TaskRef>)
    ensures (forall k :: k in Keys(refs) ==> !Blocked(refs, k)) <==> !Cyclic(refs) && DepsKnown(refs)
  {
    if Cyclic(refs) {
      var k :| OnCycle(refs, k);
      var p :| |p| >= 2 && Connects(refs, p, k, k);
      assert Edge(refs, p[|p| - 2], p[|p| - 1]);
      SelfReaches(refs, k);
      assert k in Keys(refs) && Blocked(refs, k);
    }
    if !DepsKnown(refs) {
      var r, d :| r in refs && d in r.dependsOn && d !in Keys(refs);
      EdgeReaches(refs, d, r.key);
      assert r.key in Keys(refs) && Blocked(refs, r.key);
    }
    if k :| k in Keys(refs) && Blocked(refs, k) && !Cyclic(refs) {
      var a :| Reaches(refs, a, k) && a !in Keys(refs);
      var p :| Connects(refs, p, a, k);
      assert Edge(refs, p[0], p[1]);
    }
  }

  lemma StuckIffBlocked(refs: seq<TaskRef>, order: seq<string>, indeg: map<string, int>, k: string)
    requires Kahn(refs, order, order, indeg) && k in Keys(refs)
    ensures k !in order <==> Blocked(refs, k)
  {
    forall x | x in Keys(refs) && x !in order ensures Unmet(refs, order, x) != {} {
      assert indeg[x] != 0;
    }
    hide Unmet, Blocked;
    if k in order { DoneIsNotBlocked(refs, order, k); } else { StuckIsBlocked(refs, order, k); }
  }

  lemma KahnEnds(refs: seq<TaskRef>, order: seq<string>, indeg: map<string, int>)
    requires NoDup(KeySeq(refs)) && Kahn(refs, order, order, indeg)
    ensures forall k :: k in Keys(refs) - Elems(order) <==> k in Keys(refs) && Blocked(refs, k)
    ensures |order| == |refs| <==> !Cyclic(refs) && DepsKnown(refs)
    ensures |order| == |refs| ==> IsOrder(refs, order)
    ensures |order| != |refs| ==> Keys(refs) - Elems(order) != {}
  {
    forall k | k in Keys(refs) ensures k !in order <==> Blocked(refs, k) {
      StuckIffBlocked(refs, order, indeg, k);
    }
    NothingBlockedIff(refs);
    KahnFacts(refs, order, order, indeg);
    SizesMatch(refs, order);
    hide Blocked, Cyclic, DepsKnown, DepsFirst, TiesByDeclaration, KeySeq, Keys;
  }

  lemma SizesMatch(refs: seq<TaskRef>, order: seq<string>)
    requires NoDup(KeySeq(refs)) && NoDup(order) && forall x :: x in order ==> x in Keys(refs)
    ensures |order| == |refs| <==> Elems(order) == Keys(refs)
    ensures Elems(order) == Keys(refs) <==> forall x :: x in Keys(refs) ==> x in order
  {
    NoDupSize(order);
    NoDupSize(KeySeq(refs));
    forall k | k in Keys(refs) ensures k in Elems(KeySeq(refs)) {
      assert KeySeq(refs)[Place(refs, k)] == k;
    }
    assert Elems(KeySeq(refs)) == Keys(refs);
    SubsetSize(Elems(order), Keys(refs));
  }

  lemma LastIndexInPrefix(order: seq<string>, n: nat, deps: set<string>)
    requires NoDup(order) && n <= |order| && deps <= Elems(order[..n])
    ensures LastIndex(order, deps) == LastIndex(order[..n], deps)
  {
    var x, y := LastIndex(order, deps), LastIndex(order[..n], deps);
    if x >= 0 {
      assert order[x] in order[..n];
    }
    assert y >= 0 ==> order[y] in deps;
  }

  lemma SameLength(refs: seq<TaskRef>, a: seq<string>, b: seq<string>)
    requires IsOrder(refs, a) && IsOrder(refs, b)
    ensures |a| == |b|
  {
    NoDupSize(a);
    NoDupSize(b);
  }

  lemma NextIsSame(refs: seq<TaskRef>, a: seq<string>, b: seq<string>, i: nat)
    requires IsOrder(refs, a) && IsOrder(refs, b) && i < |a| == |b| && a[..i] == b[..i]
    ensures a[i] == b[i]
  {
    if a[i] != b[i] {
      var p := a[..i];
      ComesLater(refs, a, b, i);
      ComesLater(refs, b, a, i);
      LastIndexInPrefix(a, i, DepsOf(refs, a[i]));
      LastIndexInPrefix(b, i, DepsOf(refs, b[i]));
      hide LastIndex, IsOrder;
    }
  }

  // What a runs next and b does not comes later in b, by b's own tie-breaking.
  lemma ComesLater(refs: seq<TaskRef>, a: seq<string>, b: seq<string>, i: nat)
    requires IsOrder(refs, a) && IsOrder(refs, b) && i < |a| == |b| && a[..i] == b[..i] && a[i] != b[i]
    ensures NoDup(a) && DepsOf(refs, a[i]) <= Elems(a[..i])
    ensures LastIndex(b, DepsOf(refs, a[i])) == LastIndex(b[..i], DepsOf(refs, a[i]))
    ensures a[i] in Keys(refs) && b[i] in Keys(refs) && Before(refs, b, b[i], a[i])
  {
    assert a[i] in Elems(a) && b[i] in Elems(b);
    var j := Find(b, a[i]);
    assert forall h :: 0 <= h < i ==> b[h] == b[..i][h] == a[..i][h] == a[h] != a[i];
    LastIndexInPrefix(b, i, DepsOf(refs, a[i]));
    hide LastIndex, Place;
    assert i < j;
  }

  lemma {:induction false} SamePrefix(refs: seq<TaskRef>, a: seq<string>, b: seq<string>, n: nat)
    requires IsOrder(refs, a) && IsOrder(refs, b) && n <= |a| == |b|
    ensures a[..n] == b[..n]
  {
    hide IsOrder;
    if n > 0 {
      SamePrefix(refs, a, b, n - 1);
      NextIsSame(refs, a, b, n - 1);
      assert a[..n] == a[..n - 1] + [a[n - 1]] && b[..n] == b[..n - 1] + [b[n - 1]];
    }
  }

  // The order is determined: no other permutation keeps dependencies first and ties in declaration order.
  lemma OrderIsUnique(refs: seq<TaskRef>, a: seq<string>, b: seq<string>)
    requires IsOrder(refs, a) && IsOrder(refs, b)
    ensures a == b
  {
    SameLength(refs, a, b);
    SamePrefix(refs, a, b, |a|);
  }

  lemma Find(s: seq<string>, x: string) returns (i: nat)
    requires x in Elems(s)
    ensures i < |s| && s[i] == x
  {
    i :| 0 <= i < |s| && s[i] == x;
  }

  // ---- the structure checks ----

  datatype StructureError =
    | NoTasks
    | DuplicateKey(at: nat)
    | RepeatedDependency(at: nat)
    | SelfDependency(at: nat)
    | UnknownDependency(at: nat, dep: string)
    | Cycle(stuck: set<string>)

  predicate DepsFine(refs: seq<TaskRef>, i: nat, upTo: nat)
    requires i < |refs| && upTo <= |refs[i].dependsOn|
  {
    forall j :: 0 <= j < upTo ==> refs[i].dependsOn[j] != refs[i].key && refs[i].dependsOn[j] in Keys(refs)
  }

  predicate RefsFine(refs: seq<TaskRef>, upTo: nat)
    requires upTo <= |refs|
  {
    forall i :: 0 <= i < upTo ==> NoDup(refs[i].dependsOn) && DepsFine(refs, i, |refs[i].dependsOn|)
  }

  // The error names the first problem, and all that is checked before it is in order.
  ghost predicate IsFirstProblem(refs: seq<TaskRef>, e: StructureError) {
    match e
    case NoTasks => refs == []
    case DuplicateKey(i) => i < |refs| && NoDup(KeySeq(refs[..i])) && refs[i].key in Keys(refs[..i])
    case RepeatedDependency(i) => i < |refs| && NoDup(KeySeq(refs)) && RefsFine(refs, i) && !NoDup(refs[i].dependsOn)
    case SelfDependency(i) =>
      && i < |refs| && NoDup(KeySeq(refs)) && RefsFine(refs, i) && NoDup(refs[i].dependsOn)
      && exists j :: 0 <= j < |refs[i].dependsOn| && DepsFine(refs, i, j) && refs[i].dependsOn[j] == refs[i].key
    case UnknownDependency(i, d) =>
      && i < |refs| && NoDup(KeySeq(refs)) && RefsFine(refs, i) && NoDup(refs[i].dependsOn) && d !in Keys(refs)
      && exists j :: 0 <= j < |refs[i].dependsOn| && DepsFine(refs, i, j) && refs[i].dependsOn[j] == d
    case Cycle(stuck) =>
      && NoDup(KeySeq(refs)) && RefsFine(refs, |refs|) && stuck != {}
      && forall k :: k in stuck <==> exists a :: OnCycle(refs, a) && Reaches(refs, a, k)
  }

  // A spec is accepted exactly when it has a task and its structure is sound.
  method ValidateStructure(refs: seq<TaskRef>) returns (r: Result<(), StructureError>)
    ensures r.Ok? <==> refs != [] && Sound(refs)
    ensures r.Err? ==> IsFirstProblem(refs, r.error)
  {
    if refs == [] {
      return Err(NoTasks);
    }
    var dup := CheckKeys(refs);
    if dup.Err? {
      return dup;
    }
    for i := 0 to |refs|
      invariant RefsFine(refs, i)
    {
      var deps := CheckDeps(refs, i);
      if deps.Err? {
        return deps;
      }
    }
    FineIff(refs);
    var order := TopologicalOrder(refs);
    if order.Err? {
      StuckOnCycles(refs, order.error);
      return Err(Cycle(order.error));
    }
    r := Ok(());
  }

  method CheckKeys(refs: seq<TaskRef>) returns (r: Result<(), StructureError>)
    requires refs != []
    ensures r.Ok? <==> NoDup(KeySeq(refs))
    ensures r.Err? ==> IsFirstProblem(refs, r.error)
  {
    var seen: map<string, nat> := map[];
    for i := 0 to |refs|
      invariant NoDup(KeySeq(refs[..i]))
      invariant seen.Keys == Keys(refs[..i])
    {
      if refs[i].key in seen {
        var j := Place(refs[..i], refs[i].key);
        assert KeySeq(refs)[j] == KeySeq(refs)[i];
        return Err(DuplicateKey(i));
      }
      NoDupConcat(KeySeq(refs[..i]), [refs[i].key]);
      assert KeySeq(refs[..i + 1]) == KeySeq(refs[..i]) + [refs[i].key];
      assert Keys(refs[..i + 1]) == Keys(refs[..i]) + {refs[i].key};
      seen := seen[refs[i].key := i];
    }
    assert refs[..|refs|] == refs;
    r := Ok(());
  }

  method CheckDeps(refs: seq<TaskRef>, i: nat) returns (r: Result<(), StructureError>)
    requires i < |refs| && NoDup(KeySeq(refs)) && RefsFine(refs, i)
    ensures r.Ok? <==> RefsFine(refs, i + 1)
    ensures r.Err? ==> IsFirstProblem(refs, r.error) && !Sound(refs)
  {
    var t := refs[i];
    NoDupSize(t.dependsOn);
    assert t in refs;
    if |Elems(t.dependsOn)| != |t.dependsOn| {
      return Err(RepeatedDependency(i));
    }
    for j := 0 to |t.dependsOn|
      invariant DepsFine(refs, i, j)
    {
      var d := t.dependsOn[j];
      if d == t.key {
        return Err(SelfDependency(i));
      }
      if d !in Keys(refs) {
        return Err(UnknownDependency(i, d));
      }
    }
    r := Ok(());
  }

  lemma FineIff(refs: seq<TaskRef>)
    requires RefsFine(refs, |refs|)
    ensures DepsOnce(refs) && NoSelf(refs) && DepsKnown(refs)
  {
    forall r | r in refs ensures NoDup(r.dependsOn) && r.key !in r.dependsOn && forall d :: d in r.dependsOn ==> d in Keys(refs) {
      var i :| 0 <= i < |refs| && refs[i] == r;
    }
  }

  lemma UpstreamIsKnown(refs: seq<TaskRef>, a: string, k: string)
    requires DepsKnown(refs) && k in Keys(refs) && Reaches(refs, a, k)
    ensures a in Keys(refs)
  {
    if a != k {
      var p :| Connects(refs, p, a, k);
      assert Edge(refs, p[0], p[1]);
    }
  }

  // With every dependency known, what is blocked is what is on a cycle or downstream of one.
  lemma StuckOnCycles(refs: seq<TaskRef>, stuck: set<string>)
    requires DepsKnown(refs) && forall k :: k in stuck <==> k in Keys(refs) && Blocked(refs, k)
    ensures forall k :: k in stuck <==> exists a :: OnCycle(refs, a) && Reaches(refs, a, k)
  {
    forall k ensures k in stuck <==> exists a :: OnCycle(refs, a) && Reaches(refs, a, k) {
      if k in stuck {
        var a :| Reaches(refs, a, k) && (OnCycle(refs, a) || a !in Keys(refs));
        UpstreamIsKnown(refs, a, k);
      }
      if a :| OnCycle(refs, a) && Reaches(refs, a, k) {
        var c :| |c| >= 2 && Connects(refs, c, a, a);
        assert Edge(refs, c[|c| - 2], c[|c| - 1]);
        if k != a { var d := LastEdge(refs, a, k); }
      }
    }
  }
}
