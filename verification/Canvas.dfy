// The builder canvas's edits of a draft (web/src/graph.ts), which may be cyclic, dangling or have duplicate keys:
// what a user may connect, and that accepted edits keep everything the server's structure check demands.
module Canvas {
  import opened Basics
  import opened Dag
  import Topology

  // ---- reachability ----

  lemma {:induction false} ListedMembers(key: string, deps: seq<string>, d: string, k: string)
    ensures k in Topology.Listed(key, deps, d) <==> k == key && d in deps
  {
    if deps != [] {
      ListedMembers(key, deps[..|deps| - 1], d, k);
      assert deps == deps[..|deps| - 1] + [deps[|deps| - 1]];
    }
  }

  lemma {:induction false} DependentsAreEdges(refs: seq<TaskRef>, d: string, k: string)
    ensures k in Topology.Dependents(refs, d) <==> Edge(refs, d, k)
  {
    if refs != [] {
      var n := |refs| - 1;
      DependentsAreEdges(refs[..n], d, k);
      ListedMembers(refs[n].key, refs[n].dependsOn, d, k);
      assert refs == refs[..n] + [refs[n]];
    }
  }

  ghost predicate Added(down0: map<string, seq<string>>, down: map<string, seq<string>>, key: string, deps: seq<string>) {
    forall d :: Listing(down, d) == Listing(down0, d) + Topology.Listed(key, deps, d)
  }

  lemma AddedNext(down0: map<string, seq<string>>, down: map<string, seq<string>>, key: string, deps: seq<string>, dep: string)
    requires Added(down0, down, key, deps)
    ensures Added(down0, down[dep := Listing(down, dep) + [key]], key, deps + [dep])
  {
    forall d ensures Listing(down[dep := Listing(down, dep) + [key]], d) == Listing(down0, d) + Topology.Listed(key, deps + [dep], d) {
      assert Listing(down, d) == Listing(down0, d) + Topology.Listed(key, deps, d);
      AddedAt(down0, down, key, deps, dep, d);
    }
    hide Listing, Topology.Listed;
  }

  lemma AddedAt(down0: map<string, seq<string>>, down: map<string, seq<string>>, key: string, deps: seq<string>, dep: string, d: string)
    requires Listing(down, d) == Listing(down0, d) + Topology.Listed(key, deps, d)
    ensures Listing(down[dep := Listing(down, dep) + [key]], d) == Listing(down0, d) + Topology.Listed(key, deps + [dep], d)
  {
    ListedNext(key, deps, dep, d);
    Regroup(Listing(down0, d), Topology.Listed(key, deps, d), if d == dep then [key] else []);
    assert Listing(down[dep := Listing(down, dep) + [key]], d) == Listing(down, d) + if d == dep then [key] else [];
    hide Topology.Listed, Listing;
  }

  lemma ListedNext(key: string, deps: seq<string>, dep: string, d: string)
    ensures Topology.Listed(key, deps + [dep], d) == Topology.Listed(key, deps, d) + if d == dep then [key] else []
  {
    assert (deps + [dep])[..|deps|] == deps;
  }

  lemma Regroup(a: seq<string>, b: seq<string>, c: seq<string>)
    ensures a + b + c == a + (b + c)
  {
  }

  method AddDown(down0: map<string, seq<string>>, r: TaskRef) returns (down: map<string, seq<string>>)
    ensures Added(down0, down, r.key, r.dependsOn)
  {
    down := down0;
    for j := 0 to |r.dependsOn|
      invariant Added(down0, down, r.key, r.dependsOn[..j])
    {
      AddedNext(down0, down, r.key, r.dependsOn[..j], r.dependsOn[j]);
      assert r.dependsOn[..j + 1] == r.dependsOn[..j] + [r.dependsOn[j]];
      down := down[r.dependsOn[j] := Listing(down, r.dependsOn[j]) + [r.key]];
    }
    assert r.dependsOn[..|r.dependsOn|] == r.dependsOn;
  }

  // down.get(d) ?? []
  function Listing(down: map<string, seq<string>>, d: string): seq<string> { if d in down then down[d] else [] }

  method Down(refs: seq<TaskRef>) returns (down: map<string, seq<string>>)
    ensures forall d, k :: k in Listing(down, d) <==> Edge(refs, d, k)
  {
    down := map[];
    for i := 0 to |refs|
      invariant forall d :: Listing(down, d) == Topology.Dependents(refs[..i], d)
    {
      down := AddDown(down, refs[i]);
      assert refs[..i + 1][..i] == refs[..i];
    }
    assert refs[..|refs|] == refs;
    forall d, k ensures k in Listing(down, d) <==> Edge(refs, d, k) { DependentsAreEdges(refs, d, k); }
  }

  ghost predicate Searched(refs: seq<TaskRef>, start: string, target: string, seen: set<string>, stack: seq<string>) {
    && (forall k :: k in seen || k in stack ==> Reaches(refs, start, k))
    && (start in seen || start in stack) && target !in seen
    && (forall d, k :: d in seen && Edge(refs, d, k) ==> k in seen || k in stack)
  }

  lemma SearchNext(refs: seq<TaskRef>, start: string, target: string, seen: set<string>, stack: seq<string>, kids: seq<string>)
    requires Searched(refs, start, target, seen, stack) && stack != []
    requires var k := stack[|stack| - 1]; k != target && forall x :: x in kids <==> Edge(refs, k, x)
    ensures var k, rest := stack[|stack| - 1], stack[..|stack| - 1];
            && (k in seen ==> Searched(refs, start, target, seen, rest))
            && Searched(refs, start, target, seen + {k}, rest + kids)
  {
    var k, rest := stack[|stack| - 1], stack[..|stack| - 1];
    assert stack == rest + [k];
    forall x | x in kids ensures Reaches(refs, start, x) {
      EdgeReaches(refs, k, x);
      ReachesTransitive(refs, start, k, x);
    }
    hide Reaches, Edge;
  }

  lemma {:induction false} ClosedUnder(refs: seq<TaskRef>, seen: set<string>, p: seq<string>)
    requires IsPath(refs, p) && p[0] in seen
    requires forall d, k :: d in seen && Edge(refs, d, k) ==> k in seen
    ensures p[|p| - 1] in seen
  {
    if |p| > 1 {
      Slice(refs, p, 0, |p| - 2);
      ClosedUnder(refs, seen, p[..|p| - 1]);
      assert Edge(refs, p[|p| - 2], p[|p| - 1]);
    }
  }

  lemma SearchEnds(refs: seq<TaskRef>, start: string, target: string, seen: set<string>)
    requires Searched(refs, start, target, seen, [])
    ensures !Reaches(refs, start, target)
  {
    if Reaches(refs, start, target) {
      var p :| Connects(refs, p, start, target);
      ClosedUnder(refs, seen, p);
    }
  }

  lemma SearchStarts(refs: seq<TaskRef>, start: string, target: string)
    ensures Searched(refs, start, target, {}, [start])
  {
    SelfReaches(refs, start);
  }

  lemma SearchFinds(refs: seq<TaskRef>, start: string, target: string, seen: set<string>, stack: seq<string>)
    requires Searched(refs, start, target, seen, stack) && stack != []
    ensures Reaches(refs, start, stack[|stack| - 1])
  {
    assert stack[|stack| - 1] in stack;
  }

  lemma KidsAreKeys(refs: seq<TaskRef>, k: string, kids: seq<string>)
    requires forall x :: x in kids <==> Edge(refs, k, x)
    ensures forall x :: x in kids ==> x in Keys(refs)
  {
  }

  // Depth-first search with a stack. It terminates on any draft and finds exactly the paths there are.
  method FindPath(refs: seq<TaskRef>, start: string, target: string) returns (found: bool)
    ensures found <==> Reaches(refs, start, target)
  {
    hide Searched, Reaches, Edge, Listing;
    var down := Down(refs);
    var seen: set<string> := {};
    var stack := [start];
    SearchStarts(refs, start, target);
    ghost var all := Keys(refs) + {start};
    while stack != []
      invariant Searched(refs, start, target, seen, stack)
      invariant forall k :: k in stack ==> k in all
      decreases all - seen, |stack|
    {
      var k := stack[|stack| - 1];
      assert k in stack;
      SearchFinds(refs, start, target, seen, stack);
      if k == target {
        return true;
      }
      var kids := Listing(down, k);
      SearchNext(refs, start, target, seen, stack, kids);
      KidsAreKeys(refs, k, kids);
      stack := stack[..|stack| - 1];
      if k !in seen {
        assert k in all - seen;
        seen := seen + {k};
        stack := stack + kids;
      }
    }
    SearchEnds(refs, start, target, seen);
    found := false;
  }

  // ---- connecting ----

  datatype Verdict = Allowed | UnknownTask | SelfDependency | AlreadyConnected | WouldCycle

  method CheckConnection(refs: seq<TaskRef>, from: string, to: string) returns (v: Verdict)
    ensures v == UnknownTask <==> from !in Keys(refs) || to !in Keys(refs)
    ensures v == SelfDependency <==> from in Keys(refs) && from == to
    ensures v == AlreadyConnected <==>
            from in Keys(refs) && to in Keys(refs) && from != to && from in refs[Topology.Place(refs, to)].dependsOn
    ensures v == WouldCycle <==>
            from in Keys(refs) && to in Keys(refs) && from != to && from !in refs[Topology.Place(refs, to)].dependsOn && Reaches(refs, to, from)
  {
    if from !in Keys(refs) || to !in Keys(refs) {
      return UnknownTask;
    }
    if from == to {
      return SelfDependency;
    }
    if from in refs[Topology.Place(refs, to)].dependsOn {
      return AlreadyConnected;
    }
    var back := FindPath(refs, to, from);
    v := if back then WouldCycle else Allowed;
  }

  function Rewire(refs: seq<TaskRef>, to: string, f: seq<string> -> seq<string>): (q: seq<TaskRef>)
    ensures |q| == |refs| && forall i :: 0 <= i < |q| ==> q[i] == if refs[i].key == to then refs[i].(dependsOn := f(refs[i].dependsOn)) else refs[i]
  {
    seq(|refs|, i requires 0 <= i < |refs| => if refs[i].key == to then refs[i].(dependsOn := f(refs[i].dependsOn)) else refs[i])
  }

  function Connect(refs: seq<TaskRef>, from: string, to: string): seq<TaskRef> {
    Rewire(refs, to, deps => deps + [from])
  }

  function Without(s: seq<string>, x: string): (r: seq<string>)
    ensures forall y :: y in r <==> y in s && y != x
  {
    if s == [] then []
    else
      assert s == s[..|s| - 1] + [s[|s| - 1]];
      Without(s[..|s| - 1], x) + if s[|s| - 1] == x then [] else [s[|s| - 1]]
  }

  lemma {:induction false} WithoutNoDup(s: seq<string>, x: string)
    requires NoDup(s)
    ensures NoDup(Without(s, x))
  {
    if s != [] {
      WithoutNoDup(s[..|s| - 1], x);
      if s[|s| - 1] != x { NoDupConcat(Without(s[..|s| - 1], x), [s[|s| - 1]]); }
    }
  }

  function Disconnect(refs: seq<TaskRef>, from: string, to: string): seq<TaskRef> {
    Rewire(refs, to, deps => Without(deps, from))
  }

  lemma RewireKeys(refs: seq<TaskRef>, to: string, f: seq<string> -> seq<string>)
    ensures KeySeq(Rewire(refs, to, f)) == KeySeq(refs) && Keys(Rewire(refs, to, f)) == Keys(refs)
  {
    var q := Rewire(refs, to, f);
    forall k ensures k in Keys(q) <==> k in Keys(refs) {
      if k in Keys(refs) {
        var i :| 0 <= i < |refs| && refs[i].key == k;
        assert q[i] in q && q[i].key == k;
      }
    }
  }

  lemma ConnectEdges(refs: seq<TaskRef>, from: string, to: string, d: string, k: string)
    ensures Edge(Connect(refs, from, to), d, k) <==> Edge(refs, d, k) || (d == from && k == to && to in Keys(refs))
  {
    var q := Connect(refs, from, to);
    if Edge(q, d, k) {
      var i :| 0 <= i < |q| && q[i].key == k && d in q[i].dependsOn;
      assert refs[i] in refs;
    }
    if Edge(refs, d, k) || (d == from && k == to && to in Keys(refs)) {
      var i :| 0 <= i < |refs| && refs[i].key == k && (d in refs[i].dependsOn || (d == from && k == to));
      assert q[i] in q;
    }
  }

  lemma DisconnectEdges(refs: seq<TaskRef>, from: string, to: string, d: string, k: string)
    ensures Edge(Disconnect(refs, from, to), d, k) <==> Edge(refs, d, k) && !(d == from && k == to)
  {
    var q := Disconnect(refs, from, to);
    if Edge(q, d, k) {
      var i :| 0 <= i < |q| && q[i].key == k && d in q[i].dependsOn;
      assert refs[i] in refs;
    }
    if Edge(refs, d, k) {
      var i :| 0 <= i < |refs| && refs[i].key == k && d in refs[i].dependsOn;
      assert q[i] in q;
    }
  }

  lemma FewerEdgesFewerPaths(refs: seq<TaskRef>, q: seq<TaskRef>, p: seq<string>)
    requires IsPath(q, p) && forall d, k :: Edge(q, d, k) ==> Edge(refs, d, k)
    ensures IsPath(refs, p)
  {
  }

  lemma CycleKept(refs: seq<TaskRef>, q: seq<TaskRef>, k: string)
    requires OnCycle(q, k) && forall a, b :: Edge(q, a, b) ==> Edge(refs, a, b)
    ensures OnCycle(refs, k)
  {
    var p :| |p| >= 2 && Connects(q, p, k, k);
    FewerEdgesFewerPaths(refs, q, p);
    assert Connects(refs, p, k, k);
  }

  lemma FewerEdgesAcyclic(refs: seq<TaskRef>, q: seq<TaskRef>)
    requires !Cyclic(refs) && forall d, k :: Edge(q, d, k) ==> Edge(refs, d, k)
    ensures !Cyclic(q)
  {
    forall k ensures !OnCycle(q, k) {
      if OnCycle(q, k) { CycleKept(refs, q, k); }
    }
  }

  // A path after connecting is one from before, or goes through the new edge.
  lemma {:induction false} PathAfterConnect(refs: seq<TaskRef>, from: string, to: string, p: seq<string>)
    requires IsPath(Connect(refs, from, to), p)
    ensures var a, b := p[0], p[|p| - 1]; Reaches(refs, a, b) || (Reaches(refs, a, from) && Reaches(refs, to, b))
  {
    var q, a, b := Connect(refs, from, to), p[0], p[|p| - 1];
    SelfReaches(refs, a);
    if |p| > 1 {
      var d := p[|p| - 2];
      Slice(q, p, 0, |p| - 2);
      PathAfterConnect(refs, from, to, p[..|p| - 1]);
      assert Edge(q, d, b);
      ConnectEdges(refs, from, to, d, b);
      hide Connect, Reaches;
      if Edge(refs, d, b) {
        EdgeReaches(refs, d, b);
        if Reaches(refs, a, d) { ReachesTransitive(refs, a, d, b); } else { ReachesTransitive(refs, to, d, b); }
      } else {
        SelfReaches(refs, to);
      }
    }
  }

  // The cycle test is exact: on any draft, connecting two existing tasks creates a cycle where there was none
  // exactly when `from` was already downstream of `to`.
  lemma ConnectCyclicIff(refs: seq<TaskRef>, from: string, to: string)
    requires to in Keys(refs)
    ensures Cyclic(Connect(refs, from, to)) <==> Cyclic(refs) || Reaches(refs, to, from)
  {
    var q := Connect(refs, from, to);
    forall d, k ensures Edge(q, d, k) <==> Edge(refs, d, k) || (d == from && k == to) { ConnectEdges(refs, from, to, d, k); }
    hide Connect;
    if Cyclic(refs) && !Cyclic(q) { FewerEdgesAcyclic(q, refs); }
    if Reaches(refs, to, from) {
      var p :| Connects(refs, p, to, from);
      FewerEdgesFewerPaths(q, refs, p);
      assert Connects(q, p, to, from);
      CycleFromBack(q, from, to);
    }
    if Cyclic(q) {
      var k :| OnCycle(q, k);
      var p :| |p| >= 2 && Connects(q, p, k, k);
      assert Edge(q, p[0], p[1]);
      Slice(q, p, 1, |p| - 1);
      CycleBefore(refs, from, to, p);
    }
  }

  lemma CycleBefore(refs: seq<TaskRef>, from: string, to: string, p: seq<string>)
    requires IsPath(Connect(refs, from, to), p) && |p| >= 2 && p[0] == p[|p| - 1]
    ensures Cyclic(refs) || Reaches(refs, to, from)
  {
    var q, k, n := Connect(refs, from, to), p[0], p[1];
    assert Edge(q, k, n);
    ConnectEdges(refs, from, to, k, n);
    Slice(q, p, 1, |p| - 1);
    PathAfterConnect(refs, from, to, p[1..]);
    hide Connect, Reaches;
    if Edge(refs, k, n) {
      EdgeReaches(refs, k, n);
      if Reaches(refs, n, k) {
        CycleFromBack(refs, k, n);
      } else {
        ReachesTransitive(refs, to, k, n);
        ReachesTransitive(refs, to, n, from);
      }
    }
  }

  // On a sound draft the accepted connections are exactly those that keep it sound.
  lemma ConnectSoundIff(refs: seq<TaskRef>, from: string, to: string)
    requires Sound(refs) && from in Keys(refs) && to in Keys(refs)
    ensures Sound(Connect(refs, from, to)) <==>
            from != to && from !in refs[Topology.Place(refs, to)].dependsOn && !Reaches(refs, to, from)
  {
    var q, at := Connect(refs, from, to), Topology.Place(refs, to);
    RewireKeys(refs, to, deps => deps + [from]);
    ConnectCyclicIff(refs, from, to);
    assert q[at] in q && refs[at] in refs;
    assert q[at].dependsOn == refs[at].dependsOn + [from];
    hide Cyclic, Reaches;
    if from in refs[at].dependsOn {
      var j :| 0 <= j < |refs[at].dependsOn| && refs[at].dependsOn[j] == from;
      assert q[at].dependsOn[j] == q[at].dependsOn[|refs[at].dependsOn|];
    } else if from != to {
      ConnectLocally(refs, from, to);
    }
  }

  lemma ConnectLocally(refs: seq<TaskRef>, from: string, to: string)
    requires NoDup(KeySeq(refs)) && DepsOnce(refs) && NoSelf(refs) && DepsKnown(refs)
    requires from in Keys(refs) && to in Keys(refs) && from != to && from !in refs[Topology.Place(refs, to)].dependsOn
    ensures var q := Connect(refs, from, to); DepsOnce(q) && NoSelf(q) && DepsKnown(q)
  {
    var q := Connect(refs, from, to);
    RewireKeys(refs, to, deps => deps + [from]);
    forall r | r in q ensures NoDup(r.dependsOn) && r.key !in r.dependsOn && forall d :: d in r.dependsOn ==> d in Keys(q) {
      var i :| 0 <= i < |q| && q[i] == r;
      assert refs[i] in refs;
      Topology.PlaceIs(refs, i);
      if refs[i].key == to { NoDupConcat(refs[i].dependsOn, [from]); }
    }
  }

  // ---- removing ----

  lemma DisconnectKeepsSound(refs: seq<TaskRef>, from: string, to: string)
    requires Sound(refs)
    ensures Sound(Disconnect(refs, from, to)) && (from == to || !Edge(Disconnect(refs, from, to), from, to))
  {
    var q := Disconnect(refs, from, to);
    RewireKeys(refs, to, deps => Without(deps, from));
    forall d, k ensures Edge(q, d, k) <==> Edge(refs, d, k) && !(d == from && k == to) { DisconnectEdges(refs, from, to, d, k); }
    FewerEdgesAcyclic(refs, q);
    forall r | r in q ensures NoDup(r.dependsOn) && r.key !in r.dependsOn && forall d :: d in r.dependsOn ==> d in Keys(q) {
      var i :| 0 <= i < |q| && q[i] == r;
      assert refs[i] in refs;
      WithoutNoDup(refs[i].dependsOn, from);
    }
  }

  function Stripped(r: TaskRef, key: string): TaskRef { r.(dependsOn := Without(r.dependsOn, key)) }

  function RemoveRef(refs: seq<TaskRef>, key: string): seq<TaskRef> {
    if refs == [] then []
    else RemoveRef(refs[..|refs| - 1], key) + if refs[|refs| - 1].key == key then [] else [Stripped(refs[|refs| - 1], key)]
  }

  predicate IsStripped(refs: seq<TaskRef>, key: string, r: TaskRef) {
    exists t :: t in refs && t.key != key && r == Stripped(t, key)
  }

  lemma StrippedSnoc(refs: seq<TaskRef>, last: TaskRef, key: string, r: TaskRef)
    ensures IsStripped(refs + [last], key, r) <==> IsStripped(refs, key, r) || (last.key != key && r == Stripped(last, key))
  {
    hide Stripped;
    if IsStripped(refs, key, r) {
      var t :| t in refs && t.key != key && r == Stripped(t, key);
      assert t in refs + [last];
    }
    assert last in refs + [last];
  }

  lemma RemoveUnfolds(refs: seq<TaskRef>, key: string)
    ensures refs == [] ==> RemoveRef(refs, key) == []
    ensures refs != [] ==>
              var n := |refs| - 1;
              RemoveRef(refs, key) == RemoveRef(refs[..n], key) + if refs[n].key == key then [] else [Stripped(refs[n], key)]
  {
  }

  lemma {:induction false} RemoveMembers(refs: seq<TaskRef>, key: string, r: TaskRef)
    ensures r in RemoveRef(refs, key) <==> IsStripped(refs, key, r)
  {
    hide Stripped, RemoveRef;
    RemoveUnfolds(refs, key);
    if refs != [] {
      hide IsStripped;
      var n := |refs| - 1;
      RemoveMembers(refs[..n], key, r);
      assert refs == refs[..n] + [refs[n]];
      StrippedSnoc(refs[..n], refs[n], key, r);
    }
  }

  lemma {:induction false} RemoveKeySeq(refs: seq<TaskRef>, key: string)
    ensures KeySeq(RemoveRef(refs, key)) == Without(KeySeq(refs), key)
  {
    if refs != [] {
      RemoveKeySeq(refs[..|refs| - 1], key);
      assert KeySeq(refs)[..|refs| - 1] == KeySeq(refs[..|refs| - 1]);
    }
  }

  lemma RemoveEdges(refs: seq<TaskRef>, key: string, d: string, k: string)
    ensures Edge(RemoveRef(refs, key), d, k) <==> Edge(refs, d, k) && d != key && k != key
  {
    var q := RemoveRef(refs, key);
    if Edge(q, d, k) {
      var r :| r in q && r.key == k && d in r.dependsOn;
      RemoveMembers(refs, key, r);
    }
    if Edge(refs, d, k) && d != key && k != key {
      var r :| r in refs && r.key == k && d in r.dependsOn;
      RemoveMembers(refs, key, Stripped(r, key));
    }
  }

  lemma RemoveKeys(refs: seq<TaskRef>, key: string)
    ensures Keys(RemoveRef(refs, key)) == Keys(refs) - {key}
  {
    var q := RemoveRef(refs, key);
    forall k ensures k in Keys(q) <==> k in Keys(refs) - {key} {
      if k in Keys(q) {
        var r :| r in q && r.key == k;
        RemoveMembers(refs, key, r);
      }
      if k in Keys(refs) - {key} {
        var r :| r in refs && r.key == k;
        RemoveMembers(refs, key, Stripped(r, key));
      }
    }
  }

  // Removing a reference leaves a sound draft; it is empty exactly when nothing else was there.
  lemma RemoveKeepsSound(refs: seq<TaskRef>, key: string)
    requires Sound(refs)
    ensures Sound(RemoveRef(refs, key)) && Keys(RemoveRef(refs, key)) == Keys(refs) - {key}
  {
    var q := RemoveRef(refs, key);
    RemoveKeySeq(refs, key);
    WithoutNoDup(KeySeq(refs), key);
    RemoveKeys(refs, key);
    forall d, k ensures Edge(q, d, k) <==> Edge(refs, d, k) && d != key && k != key { RemoveEdges(refs, key, d, k); }
    FewerEdgesAcyclic(refs, q);
    forall r | r in q ensures NoDup(r.dependsOn) && r.key !in r.dependsOn && forall d :: d in r.dependsOn ==> d in Keys(q) {
      RemovedRef(refs, key, r);
    }
  }

  lemma RemovedRef(refs: seq<TaskRef>, key: string, r: TaskRef)
    requires DepsOnce(refs) && NoSelf(refs) && DepsKnown(refs) && r in RemoveRef(refs, key)
    ensures NoDup(r.dependsOn) && r.key !in r.dependsOn && forall d :: d in r.dependsOn ==> d in Keys(RemoveRef(refs, key))
  {
    RemoveMembers(refs, key, r);
    RemoveKeys(refs, key);
    var t :| t in refs && t.key != key && r == Stripped(t, key);
    WithoutNoDup(t.dependsOn, key);
    hide Keys, RemoveRef;
  }

  lemma RemoveEmptiesIff(refs: seq<TaskRef>, key: string)
    ensures RemoveRef(refs, key) == [] <==> Keys(refs) <= {key}
  {
    var q := RemoveRef(refs, key);
    RemoveKeys(refs, key);
    if q != [] { assert q[0] in q && q[0].key in Keys(q); }
  }

  // ---- renaming ----

  function Renamed(x: string, from: string, to: string): string { if x == from then to else x }

  function RenameDeps(deps: seq<string>, from: string, to: string): seq<string> {
    seq(|deps|, i requires 0 <= i < |deps| => Renamed(deps[i], from, to))
  }

  function RenameKey(refs: seq<TaskRef>, from: string, to: string): seq<TaskRef> {
    seq(|refs|, i requires 0 <= i < |refs| =>
      refs[i].(key := Renamed(refs[i].key, from, to), dependsOn := RenameDeps(refs[i].dependsOn, from, to)))
  }

  lemma RenameKeys(refs: seq<TaskRef>, from: string, to: string, k: string)
    ensures k in Keys(RenameKey(refs, from, to)) <==> exists x :: x in Keys(refs) && k == Renamed(x, from, to)
  {
    var q := RenameKey(refs, from, to);
    if k in Keys(q) {
      var i :| 0 <= i < |q| && q[i].key == k;
      assert refs[i] in refs && refs[i].key in Keys(refs);
    }
    if x :| x in Keys(refs) && k == Renamed(x, from, to) {
      var i :| 0 <= i < |refs| && refs[i].key == x;
      assert q[i] in q && q[i].key in Keys(q);
    }
  }

  lemma RenamedEdge(refs: seq<TaskRef>, from: string, to: string, d: string, k: string)
    requires DepsKnown(refs) && to !in Keys(refs) && Edge(RenameKey(refs, from, to), d, k)
    ensures Edge(refs, Renamed(d, to, from), Renamed(k, to, from))
  {
    var q := RenameKey(refs, from, to);
    var i :| 0 <= i < |q| && q[i].key == k && d in q[i].dependsOn;
    var j :| 0 <= j < |q[i].dependsOn| && q[i].dependsOn[j] == d;
    assert refs[i] in refs && refs[i].dependsOn[j] in refs[i].dependsOn;
  }

  lemma EdgeRenamed(refs: seq<TaskRef>, from: string, to: string, d: string, k: string)
    requires Edge(refs, d, k)
    ensures Edge(RenameKey(refs, from, to), Renamed(d, from, to), Renamed(k, from, to))
  {
    var q := RenameKey(refs, from, to);
    var i :| 0 <= i < |refs| && refs[i].key == k && d in refs[i].dependsOn;
    var n :| 0 <= n < |refs[i].dependsOn| && refs[i].dependsOn[n] == d;
    assert q[i].key == Renamed(k, from, to) && q[i].dependsOn[n] == Renamed(d, from, to);
  }

  // The edges after renaming to a free key are the edges before it under their new names, all of them and no others.
  ghost predicate EdgesFollow(refs: seq<TaskRef>, from: string, to: string) {
    forall d, k :: Edge(RenameKey(refs, from, to), d, k) <==> d != from && k != from && Edge(refs, Renamed(d, to, from), Renamed(k, to, from))
  }

  lemma OldNameGone(refs: seq<TaskRef>, from: string, to: string, d: string, k: string)
    requires from != to && Edge(RenameKey(refs, from, to), d, k)
    ensures d != from && k != from
  {
    var q := RenameKey(refs, from, to);
    var i :| 0 <= i < |q| && q[i].key == k && d in q[i].dependsOn;
    var n :| 0 <= n < |q[i].dependsOn| && q[i].dependsOn[n] == d;
    assert d == Renamed(refs[i].dependsOn[n], from, to) && k == Renamed(refs[i].key, from, to);
  }

  lemma RenamedEdges(refs: seq<TaskRef>, from: string, to: string)
    requires DepsKnown(refs) && from != to && to !in Keys(refs)
    ensures EdgesFollow(refs, from, to)
  {
    forall d, k ensures Edge(RenameKey(refs, from, to), d, k) <==>
                        d != from && k != from && Edge(refs, Renamed(d, to, from), Renamed(k, to, from))
    {
      if Edge(RenameKey(refs, from, to), d, k) {
        RenamedEdge(refs, from, to, d, k);
        OldNameGone(refs, from, to, d, k);
      }
      if d != from && k != from && Edge(refs, Renamed(d, to, from), Renamed(k, to, from)) {
        EdgeRenamed(refs, from, to, Renamed(d, to, from), Renamed(k, to, from));
      }
    }
  }

  lemma RenamedCycle(refs: seq<TaskRef>, from: string, to: string, k: string)
    requires DepsKnown(refs) && to !in Keys(refs) && OnCycle(RenameKey(refs, from, to), k)
    ensures OnCycle(refs, Renamed(k, to, from))
  {
    var q := RenameKey(refs, from, to);
    var p :| |p| >= 2 && Connects(q, p, k, k);
    var p2 := RenameDeps(p, to, from);
    forall i, j | 0 <= i < j < |p2| && j == i + 1 ensures Edge(refs, p2[i], p2[j]) {
      assert Edge(q, p[i], p[j]);
      RenamedEdge(refs, from, to, p[i], p[j]);
    }
    assert Connects(refs, p2, Renamed(k, to, from), Renamed(k, to, from));
  }

  lemma RenameNoDup(s: seq<string>, from: string, to: string)
    requires NoDup(s) && to !in s
    ensures NoDup(RenameDeps(s, from, to))
  {
    var t := RenameDeps(s, from, to);
    forall i, j | 0 <= i < j < |t| ensures t[i] != t[j] {
      assert s[i] in s && s[j] in s;
    }
  }

  // Renaming an existing key keeps a sound draft sound exactly when the new key is free.
  lemma RenameSoundIff(refs: seq<TaskRef>, from: string, to: string)
    requires Sound(refs) && from in Keys(refs) && from != to
    ensures Sound(RenameKey(refs, from, to)) <==> to !in Keys(refs)
    ensures to !in Keys(refs) ==> EdgesFollow(refs, from, to)
  {
    var q := RenameKey(refs, from, to);
    if to in Keys(refs) {
      var i :| 0 <= i < |refs| && refs[i].key == to;
      var j :| 0 <= j < |refs| && refs[j].key == from;
      assert KeySeq(q)[i] == KeySeq(q)[j];
    } else {
      RenameSound(refs, from, to);
    }
  }

  lemma RenameSound(refs: seq<TaskRef>, from: string, to: string)
    requires Sound(refs) && from in Keys(refs) && to !in Keys(refs)
    ensures Sound(RenameKey(refs, from, to)) && EdgesFollow(refs, from, to)
  {
    var q := RenameKey(refs, from, to);
    RenamedEdges(refs, from, to);
    forall k ensures !OnCycle(q, k) {
      if OnCycle(q, k) { RenamedCycle(refs, from, to, k); }
    }
    KeysInOrder(refs);
    RenameNoDup(KeySeq(refs), from, to);
    assert KeySeq(q) == RenameDeps(KeySeq(refs), from, to);
    forall r | r in q ensures NoDup(r.dependsOn) && r.key !in r.dependsOn && forall d :: d in r.dependsOn ==> d in Keys(q) {
      var i :| 0 <= i < |q| && q[i] == r;
      RenamedRef(refs, from, to, i);
    }
  }

  lemma RenamedRef(refs: seq<TaskRef>, from: string, to: string, i: nat)
    requires DepsOnce(refs) && NoSelf(refs) && DepsKnown(refs) && to !in Keys(refs) && i < |refs|
    ensures var q := RenameKey(refs, from, to); var r := q[i];
            NoDup(r.dependsOn) && r.key !in r.dependsOn && forall d :: d in r.dependsOn ==> d in Keys(q)
  {
    var q, t := RenameKey(refs, from, to), refs[i];
    assert t in refs && to !in t.dependsOn;
    RenameNoDup(t.dependsOn, from, to);
    forall j | 0 <= j < |t.dependsOn| ensures q[i].dependsOn[j] in Keys(q) && q[i].dependsOn[j] != q[i].key {
      assert t.dependsOn[j] in t.dependsOn;
      RenameKeys(refs, from, to, q[i].dependsOn[j]);
    }
  }

  // ---- what edits leave alone ----

  predicate SameNode(a: TaskRef, b: TaskRef) {
    a.taskId == b.taskId && a.taskVersion == b.taskVersion && a.paramOverrides == b.paramOverrides && a.position == b.position
  }

  // Connecting, disconnecting and renaming change no node but in its key and its dependencies, and those only of the
  // node named; order and number stay.
  lemma EditsKeepNodes(refs: seq<TaskRef>, from: string, to: string, i: nat)
    requires i < |refs|
    ensures var q := Connect(refs, from, to);
            |q| == |refs| && SameNode(q[i], refs[i]) && q[i].key == refs[i].key && (refs[i].key != to ==> q[i] == refs[i])
    ensures var q := Disconnect(refs, from, to);
            |q| == |refs| && SameNode(q[i], refs[i]) && q[i].key == refs[i].key && (refs[i].key != to ==> q[i] == refs[i])
    ensures var q := RenameKey(refs, from, to);
            && |q| == |refs| && SameNode(q[i], refs[i]) && q[i].key == (if refs[i].key == from then to else refs[i].key)
            && (refs[i].key != from && from !in refs[i].dependsOn ==> q[i] == refs[i])
  {
    if from !in refs[i].dependsOn { assert RenameDeps(refs[i].dependsOn, from, to) == refs[i].dependsOn; }
  }

  // Removing leaves the other nodes as they are, in order, but for their dependency on the one removed.
  lemma {:induction false} RemoveKeepsNodes(refs: seq<TaskRef>, key: string)
    ensures var q := RemoveRef(refs, key);
            && KeySeq(q) == Without(KeySeq(refs), key)
            && forall r :: r in q ==> exists t :: t in refs && t.key == r.key && SameNode(r, t) && (key !in t.dependsOn ==> r == t)
  {
    RemoveKeySeq(refs, key);
    forall r | r in RemoveRef(refs, key) ensures exists t :: t in refs && t.key == r.key && SameNode(r, t) && (key !in t.dependsOn ==> r == t) {
      RemoveMembers(refs, key, r);
      var t :| t in refs && t.key != key && r == Stripped(t, key);
      if key !in t.dependsOn { WithoutNone(t.dependsOn, key); }
    }
  }

  lemma {:induction false} WithoutNone(s: seq<string>, x: string)
    requires x !in s
    ensures Without(s, x) == s
  {
    if s != [] {
      assert s == s[..|s| - 1] + [s[|s| - 1]];
      WithoutNone(s[..|s| - 1], x);
    }
  }

  // ---- new keys and copies ----

  function Numbered(prefix: string, i: nat): string { prefix + "_" + Decimal(i) }

  lemma NumberedInjective(prefix: string, i: nat, j: nat)
    requires Numbered(prefix, i) == Numbered(prefix, j)
    ensures i == j
  {
    var n := |prefix + "_"|;
    assert Numbered(prefix, i)[n..] == Decimal(i) && Numbered(prefix, j)[n..] == Decimal(j);
    DecimalRoundTrip(i);
    DecimalRoundTrip(j);
  }

  // No more numbered keys are taken than there are keys.
  lemma TakenBound(prefix: string, taken: set<string>, n: nat)
    requires forall j :: 1 <= j <= n ==> Numbered(prefix, j) in taken
    ensures n <= |taken|
  {
    var s := seq(n, i requires 0 <= i < n => Numbered(prefix, i + 1));
    forall i, j | 0 <= i < j < n ensures s[i] != s[j] {
      if s[i] == s[j] { NumberedInjective(prefix, i + 1, j + 1); }
    }
    forall x | x in s ensures x in taken {
      var i :| 0 <= i < n && s[i] == x;
    }
    NoDupBound(s, taken);
  }

  // The loop that never says where it ends: it stops at the first free number, no later than |existing| + 1.
  method UniqueKey(prefix: string, existing: seq<string>) returns (k: string, ghost i: nat)
    ensures k == Numbered(prefix, i) && k !in existing && 1 <= i <= |Elems(existing)| + 1
    ensures forall j :: 1 <= j < i ==> Numbered(prefix, j) in existing
  {
    var taken := Elems(existing);
    var n := 1;
    k := Numbered(prefix, n);
    while k in taken
      invariant n >= 1 && k == Numbered(prefix, n)
      invariant forall j :: 1 <= j < n ==> Numbered(prefix, j) in taken
      decreases |taken| + 1 - n
    {
      TakenBound(prefix, taken, n);
      n := n + 1;
      k := Numbered(prefix, n);
    }
    TakenBound(prefix, taken, n - 1);
    i := n;
  }

  const NODE_WIDTH := 220
  const NODE_HEIGHT := 84
  const COL_GAP := 90
  const ROW_GAP := 40

  function Copy(src: TaskRef, key: string): TaskRef {
    src.(key := key, position := Position(src.position.x, src.position.y + NODE_HEIGHT + ROW_GAP))
  }

  lemma KeysInOrder(refs: seq<TaskRef>)
    ensures forall k :: k in KeySeq(refs) <==> k in Keys(refs)
  {
    forall k | k in Keys(refs) ensures k in KeySeq(refs) {
      assert KeySeq(refs)[Topology.Place(refs, k)] == k;
    }
    forall k | k in KeySeq(refs) ensures k in Keys(refs) {
      var i :| 0 <= i < |refs| && KeySeq(refs)[i] == k;
      assert refs[i] in refs;
    }
  }

  method DuplicateRef(refs: seq<TaskRef>, key: string) returns (q: seq<TaskRef>, made: Option<string>)
    ensures made.None? <==> key !in Keys(refs)
    ensures made.None? ==> q == refs
    ensures made.Some? ==> made.value !in Keys(refs) && q == refs + [Copy(refs[Topology.Place(refs, key)], made.value)]
    ensures made.Some? ==> exists i: nat :: made.value == Numbered(Take(key, 58), i) && 1 <= i <= |refs| + 1
  {
    if key !in Keys(refs) {
      return refs, None;
    }
    var src := refs[Topology.Place(refs, key)];
    var k, i := UniqueKey(Take(src.key, 58), KeySeq(refs));
    NoDupSize(KeySeq(refs));
    KeysInOrder(refs);
    q, made := refs + [Copy(src, k)], Some(k);
  }

  lemma CopyEdges(refs: seq<TaskRef>, c: TaskRef, d: string, k: string)
    ensures Edge(refs + [c], d, k) <==> Edge(refs, d, k) || (k == c.key && d in c.dependsOn)
  {
  }

  // Nothing leads out of the copy, so a path that is not in the original ends at the copy.
  lemma {:induction false} PathAfterCopy(refs: seq<TaskRef>, c: TaskRef, p: seq<string>)
    requires IsPath(refs + [c], p) && c.key !in Keys(refs) && DepsKnown(refs) && (forall d :: d in c.dependsOn ==> d in Keys(refs))
    ensures IsPath(refs, p[..|p| - 1]) || |p| == 1
    ensures p[|p| - 1] != c.key ==> IsPath(refs, p)
  {
    forall i, j | 0 <= i < j < |p| && j == i + 1 ensures Edge(refs, p[i], p[j]) || (j == |p| - 1 && p[j] == c.key) {
      assert Edge(refs + [c], p[i], p[j]);
      CopyEdges(refs, c, p[i], p[j]);
      if j < |p| - 1 {
        assert Edge(refs + [c], p[j], p[j + 1]);
        CopyEdges(refs, c, p[j], p[j + 1]);
      }
    }
  }

  // A copy has its original's task, version, overrides and dependencies; it is drawn straight below it, clear of it.
  lemma CopyIs(src: TaskRef, key: string)
    ensures var c := Copy(src, key);
            && c.key == key && c.taskId == src.taskId && c.taskVersion == src.taskVersion && c.dependsOn == src.dependsOn
            && c.paramOverrides == src.paramOverrides && c.position.x == src.position.x && c.position.y == src.position.y + NODE_HEIGHT + ROW_GAP
  {
  }

  // A copy of a reference keeps the draft sound, and nothing depends on it.
  lemma DuplicateKeepsSound(refs: seq<TaskRef>, src: TaskRef, key: string)
    requires Sound(refs) && src in refs && key !in Keys(refs)
    ensures Sound(refs + [Copy(src, key)])
    ensures forall k :: !Edge(refs + [Copy(src, key)], key, k)
  {
    var c := Copy(src, key);
    var q := refs + [c];
    assert c.dependsOn == src.dependsOn;
    forall k ensures !Edge(q, key, k) { CopyEdges(refs, c, key, k); }
    forall k ensures !OnCycle(q, k) {
      if OnCycle(q, k) { CycleAvoidsCopy(refs, c, k); }
    }
    assert KeySeq(q) == KeySeq(refs) + [key];
    KeysInOrder(refs);
    NoDupConcat(KeySeq(refs), [key]);
    assert Keys(refs) <= Keys(q);
  }

  lemma CycleAvoidsCopy(refs: seq<TaskRef>, c: TaskRef, k: string)
    requires OnCycle(refs + [c], k) && c.key !in Keys(refs) && DepsKnown(refs) && (forall d :: d in c.dependsOn ==> d in Keys(refs))
    ensures OnCycle(refs, k)
  {
    var p :| |p| >= 2 && Connects(refs + [c], p, k, k);
    assert Edge(refs + [c], p[0], p[1]);
    CopyEdges(refs, c, p[0], p[1]);
    PathAfterCopy(refs, c, p);
    assert Connects(refs, p, k, k);
  }

  // ---- key grammar: ^[a-z][a-z0-9_]{0,62}$ ----

  predicate KeyChar(c: char) { 'a' <= c <= 'z' || '0' <= c <= '9' || c == '_' }

  predicate ValidKey(k: string) { 1 <= |k| <= 63 && 'a' <= k[0] <= 'z' && forall c :: c in k ==> KeyChar(c) }

  lemma {:induction false} DecimalShape(n: nat, digits: nat, bound: nat)
    requires digits >= 1 && bound == Power10(digits) && n < bound
    ensures |Decimal(n)| <= digits && forall c :: c in Decimal(n) ==> '0' <= c <= '9'
  {
    if n >= 10 {
      assert digits > 1;
      DecimalShape(n / 10, digits - 1, Power10(digits - 1));
    }
  }

  function Power10(n: nat): nat { if n == 0 then 1 else 10 * Power10(n - 1) }

  // The copy of a well-named node is well named, in any spec within the server's limit of 200 tasks and far beyond.
  lemma CopyKeyIsValid(key: string, i: nat)
    requires ValidKey(key) && i < 10_000
    ensures ValidKey(Numbered(Take(key, 58), i))
  {
    assert Power10(4) == 10_000;
    DecimalShape(i, 4, 10_000);
    var t := Take(key, 58);
    assert forall c :: c in t ==> c in key;
  }

  // ---- positions ----

  predicate Overlapping(refs: seq<TaskRef>) { exists i, j :: 0 <= i < j < |refs| && refs[i].position == refs[j].position }

  method HasOverlappingPositions(refs: seq<TaskRef>) returns (r: bool)
    ensures r <==> Overlapping(refs)
  {
    var seen: set<Position> := {};
    for i := 0 to |refs|
      invariant forall p :: p in seen <==> exists k :: 0 <= k < i && refs[k].position == p
      invariant forall k, j :: 0 <= k < j < i ==> refs[k].position != refs[j].position
    {
      if refs[i].position in seen {
        return true;
      }
      seen := seen + {refs[i].position};
    }
    r := false;
  }
}
