// Automatic layout (web/src/graph.ts): a memoised longest-path depth gives each node its column. It runs while the
// user is mid-edit, so on drafts that are cyclic, dangling or have duplicate keys too.
module Layout {
  import opened Basics
  import opened Dag
  import opened Canvas
  import Topology

  const COLUMN: int := NODE_WIDTH + COL_GAP
  const ROW: int := NODE_HEIGHT + ROW_GAP

  // new Map(refs.map(r => [r.key, r])): of equal keys the last wins.
  function ByKey(refs: seq<TaskRef>): (m: map<string, TaskRef>)
    ensures m.Keys == Keys(refs) && forall k :: k in m ==> m[k] in refs && m[k].key == k
  {
    if refs == [] then map[]
    else
      assert refs == refs[..|refs| - 1] + [refs[|refs| - 1]];
      ByKey(refs[..|refs| - 1])[refs[|refs| - 1].key := refs[|refs| - 1]]
  }

  lemma OnlyEntry(refs: seq<TaskRef>, d: string, k: string)
    requires NoDup(KeySeq(refs)) && k in Keys(refs)
    ensures d in ByKey(refs)[k].dependsOn <==> Edge(refs, d, k)
  {
    if Edge(refs, d, k) {
      var i :| 0 <= i < |refs| && refs[i].key == k && d in refs[i].dependsOn;
      var j :| 0 <= j < |refs| && refs[j] == ByKey(refs)[k];
      Topology.PlaceIs(refs, i);
      Topology.PlaceIs(refs, j);
    }
  }

  ghost predicate PathTo(refs: seq<TaskRef>, p: seq<string>, k: string) { IsPath(refs, p) && p[|p| - 1] == k && p[0] in Keys(refs) }

  // The longest path of nodes into k has n edges.
  ghost predicate IsDepth(refs: seq<TaskRef>, k: string, n: nat) {
    && (exists p :: PathTo(refs, p, k) && |p| == n + 1)
    && (forall p :: PathTo(refs, p, k) ==> |p| <= n + 1)
  }

  ghost predicate HasDepthUpTo(refs: seq<TaskRef>, k: string, m: int) { exists n: nat :: n <= m && IsDepth(refs, k, n) }

  ghost predicate StrictlyReaches(refs: seq<TaskRef>, a: string, b: string) { exists p :: |p| >= 2 && Connects(refs, p, a, b) }

  lemma DepthFromDeps(refs: seq<TaskRef>, k: string, m: int)
    requires k in Keys(refs) && -1 <= m
    requires m >= 0 ==> exists d :: d in Keys(refs) && Edge(refs, d, k) && IsDepth(refs, d, m)
    requires forall d :: d in Keys(refs) && Edge(refs, d, k) ==> HasDepthUpTo(refs, d, m)
    ensures IsDepth(refs, k, m + 1)
  {
    if m == -1 {
      assert PathTo(refs, [k], k);
    } else {
      var d :| d in Keys(refs) && Edge(refs, d, k) && IsDepth(refs, d, m);
      var p :| PathTo(refs, p, d) && |p| == m + 1;
      EdgeReaches(refs, d, k);
      Join(refs, p, [d, k], p[0], d, k);
      assert PathTo(refs, p + [d, k][1..], k);
    }
    forall p | PathTo(refs, p, k) ensures |p| <= m + 2 {
      if |p| > 1 { ShorterPath(refs, p, k); }
    }
  }

  lemma ShorterPath(refs: seq<TaskRef>, p: seq<string>, k: string)
    requires PathTo(refs, p, k) && |p| > 1
    ensures var d := p[|p| - 2]; d in Keys(refs) && Edge(refs, d, k) && PathTo(refs, p[..|p| - 1], d)
  {
    Slice(refs, p, 0, |p| - 2);
    assert Edge(refs, p[|p| - 2], p[|p| - 1]);
    if |p| > 2 { assert Edge(refs, p[|p| - 3], p[|p| - 2]); }
  }

  // Depths grow along edges.
  lemma DepthsGrow(refs: seq<TaskRef>, d: string, k: string, n: nat, m: nat)
    requires Edge(refs, d, k) && IsDepth(refs, d, n) && IsDepth(refs, k, m)
    ensures n < m
  {
    var p :| PathTo(refs, p, d) && |p| == n + 1;
    EdgeReaches(refs, d, k);
    Join(refs, p, [d, k], p[0], d, k);
    assert PathTo(refs, p + [d, k][1..], k);
  }

  lemma StrictlyThrough(refs: seq<TaskRef>, d: string, k: string, v: string)
    requires Edge(refs, d, k) && (v == k || StrictlyReaches(refs, k, v))
    ensures StrictlyReaches(refs, d, v)
  {
    EdgeReaches(refs, d, k);
    if v != k {
      var p :| |p| >= 2 && Connects(refs, p, k, v);
      Join(refs, [d, k], p, d, k, v);
    }
  }

  lemma NotAboveItself(refs: seq<TaskRef>, k: string)
    requires Acyclic(refs)
    ensures !StrictlyReaches(refs, k, k)
  {
    assert !OnCycle(refs, k);
  }

  // A draft whose keys are distinct and whose edges form no cycle; dependencies may dangle.
  ghost predicate Acyclic(refs: seq<TaskRef>) { NoDup(KeySeq(refs)) && !Cyclic(refs) }

  // m is the greatest depth of the listed dependencies that are nodes, -1 when there is none.
  ghost predicate MaxSoFar(refs: seq<TaskRef>, key: string, deps: seq<string>, m: int) {
    && (m >= 0 ==> exists k :: k in Keys(refs) && Edge(refs, k, key) && IsDepth(refs, k, m))
    && (forall k :: k in deps && k in Keys(refs) ==> HasDepthUpTo(refs, k, m))
  }

  lemma MaxStarts(refs: seq<TaskRef>, key: string)
    ensures MaxSoFar(refs, key, [], -1)
  {
  }

  lemma MaxSkips(refs: seq<TaskRef>, key: string, deps: seq<string>, m: int, dep: string)
    requires MaxSoFar(refs, key, deps, m) && dep !in Keys(refs)
    ensures MaxSoFar(refs, key, deps + [dep], m)
  {
    hide IsDepth;
  }

  lemma MaxNext(refs: seq<TaskRef>, key: string, deps: seq<string>, m: int, dep: string, x: nat)
    requires MaxSoFar(refs, key, deps, m) && dep in Keys(refs) && Edge(refs, dep, key) && IsDepth(refs, dep, x)
    ensures MaxSoFar(refs, key, deps + [dep], Max(m, x))
  {
    hide IsDepth, Edge;
    forall k | k in deps + [dep] && k in Keys(refs) ensures HasDepthUpTo(refs, k, Max(m, x)) {
      if k != dep {
        assert HasDepthUpTo(refs, k, m);
        var n: nat :| n <= m && IsDepth(refs, k, n);
      }
    }
  }

  lemma MaxEnds(refs: seq<TaskRef>, key: string, m: int)
    requires Acyclic(refs) && key in Keys(refs) && m >= -1 && MaxSoFar(refs, key, ByKey(refs)[key].dependsOn, m)
    ensures IsDepth(refs, key, m + 1)
  {
    forall k | k in Keys(refs) && Edge(refs, k, key) ensures HasDepthUpTo(refs, k, m) { OnlyEntry(refs, k, key); }
    hide IsDepth;
    DepthFromDeps(refs, key, m);
  }

  class Depths {
    ghost const refs: seq<TaskRef>
    const byKey: map<string, TaskRef>
    var depth: map<string, nat>
    var visiting: set<string>

    constructor (refs: seq<TaskRef>)
      ensures this.refs == refs && Valid() && visiting == {}
    {
      this.refs, byKey, depth, visiting := refs, ByKey(refs), map[], {};
    }

    // Every depth found so far is right, where there is a right one.
    ghost predicate Valid()
      reads this
    {
      && byKey == ByKey(refs) && visiting <= byKey.Keys
      && (Acyclic(refs) ==> forall k :: k in depth ==> IsDepth(refs, k, depth[k]))
    }

    // What is being visited is downstream, so that meeting it again means a cycle.
    ghost predicate Above(key: string)
      reads this
    {
      Acyclic(refs) ==> forall v :: v in visiting ==> StrictlyReaches(refs, key, v)
    }

    // On any draft the recursion ends, since a node being visited is not visited again.
    method DepthOf(key: string) returns (d: nat)
      requires Valid() && key in byKey && Above(key)
      modifies this
      ensures Valid() && visiting == old(visiting)
      ensures Acyclic(refs) ==> IsDepth(refs, key, d)
      decreases byKey.Keys - visiting, 1
    {
      if key in depth {
        return depth[key];
      }
      if key in visiting {
        if Acyclic(refs) { NotAboveItself(refs, key); }
        return 0;
      }
      visiting := visiting + {key};
      d := FromDeps(key);
      visiting := visiting - {key};
      depth := depth[key := d];
    }

    method FromDeps(key: string) returns (d: nat)
      requires Valid() && key in visiting
      requires Acyclic(refs) ==> forall v :: v in visiting && v != key ==> StrictlyReaches(refs, key, v)
      modifies this
      ensures Valid() && visiting == old(visiting)
      ensures Acyclic(refs) ==> IsDepth(refs, key, d)
      decreases byKey.Keys - visiting, 2
    {
      var deps, m: int := byKey[key].dependsOn, -1;
      MaxStarts(refs, key);
      for i := 0 to |deps|
        invariant Valid() && visiting == old(visiting) && m >= -1
        invariant Acyclic(refs) ==> MaxSoFar(refs, key, deps[..i], m)
      {
        hide Acyclic, MaxSoFar, IsDepth, Edge, StrictlyReaches;
        assert deps[..i + 1] == deps[..i] + [deps[i]];
        if deps[i] in byKey {
          DepEdge(refs, deps[i], key);
          AboveDep(deps[i], key);
          var x := DepthOf(deps[i]);
          if Acyclic(refs) { MaxNext(refs, key, deps[..i], m, deps[i], x); }
          m := Max(m, x);
        } else if Acyclic(refs) {
          MaxSkips(refs, key, deps[..i], m, deps[i]);
        }
      }
      assert deps[..|deps|] == deps;
      if Acyclic(refs) { MaxEnds(refs, key, m); }
      d := m + 1;
    }

    lemma AboveDep(dep: string, key: string)
      requires Edge(refs, dep, key)
      requires Acyclic(refs) ==> forall v :: v in visiting && v != key ==> StrictlyReaches(refs, key, v)
      ensures Above(dep)
    {
      if Acyclic(refs) {
        forall v | v in visiting ensures StrictlyReaches(refs, dep, v) { StrictlyThrough(refs, dep, key, v); }
      }
    }
  }

  lemma DepEdge(refs: seq<TaskRef>, d: string, k: string)
    requires k in Keys(refs) && d in ByKey(refs)[k].dependsOn
    ensures Edge(refs, d, k)
  {
  }

  function At(cell: (nat, nat)): Position { Position(cell.0 * COLUMN, cell.1 * ROW) }

  // Two nodes drawn at these places are clear of each other by a whole gap.
  predicate Clear(p: Position, q: Position) {
    || p.x + NODE_WIDTH + COL_GAP <= q.x || q.x + NODE_WIDTH + COL_GAP <= p.x
    || p.y + NODE_HEIGHT + ROW_GAP <= q.y || q.y + NODE_HEIGHT + ROW_GAP <= p.y
  }

  lemma CellsApart(a: (nat, nat), b: (nat, nat))
    requires a != b
    ensures At(a) != At(b) && Clear(At(a), At(b))
  {
  }

  // The column of a node at the end of a longest path of n edges.
  ghost predicate InColumn(refs: seq<TaskRef>, k: string, x: int) { exists n: nat :: IsDepth(refs, k, n) && x == At((n, 0)).x }

  // How many references are drawn at a horizontal position.
  function DrawnAt(q: seq<TaskRef>, x: int): nat {
    if q == [] then 0 else DrawnAt(q[..|q| - 1], x) + if q[|q| - 1].position.x == x then 1 else 0
  }

  lemma {:induction false} DrawnInColumn(q: seq<TaskRef>, cells: seq<(nat, nat)>, col: nat)
    requires |q| == |cells| && forall i :: 0 <= i < |q| ==> q[i].position == At(cells[i])
    ensures DrawnAt(q, At((col, 0)).x) == Height(cells, col)
  {
    if q != [] {
      DrawnInColumn(q[..|q| - 1], cells[..|q| - 1], col);
      if cells[|q| - 1].0 != col { CellsApart((col, 0), (cells[|q| - 1].0, 0)); }
    }
  }

  // Any draft: the same references, every two a gap apart, each below the earlier ones of its column. Without cycles
  // a node's column is its longest path.
  method AutoLayout(refs: seq<TaskRef>) returns (q: seq<TaskRef>)
    ensures |q| == |refs| && forall i :: 0 <= i < |q| ==> q[i] == refs[i].(position := q[i].position)
    ensures !Overlapping(q) && forall i, j :: 0 <= i < j < |q| ==> Clear(q[i].position, q[j].position)
    ensures forall i :: 0 <= i < |q| ==> q[i].position.y == DrawnAt(q[..i], q[i].position.x) * ROW
    ensures Acyclic(refs) ==> forall i :: 0 <= i < |q| ==> InColumn(refs, refs[i].key, q[i].position.x)
  {
    var cells := Cells(refs);
    q := seq(|refs|, i requires 0 <= i < |refs| && |cells| == |refs| => refs[i].(position := At(cells[i])));
    forall i, j | 0 <= i < j < |q| ensures q[i].position != q[j].position && Clear(q[i].position, q[j].position) { CellsApart(cells[i], cells[j]); }
    forall i | 0 <= i < |q| ensures q[i].position.y == DrawnAt(q[..i], q[i].position.x) * ROW {
      DrawnInColumn(q[..i], cells[..i], cells[i].0);
    }
    hide IsDepth;
    if Acyclic(refs) {
      forall i | 0 <= i < |q| ensures InColumn(refs, refs[i].key, q[i].position.x) {
        assert IsDepth(refs, refs[i].key, cells[i].0) && q[i].position.x == At((cells[i].0, 0)).x;
      }
    }
  }

  // How many cells are in a column.
  function Height(cells: seq<(nat, nat)>, col: nat): nat {
    if cells == [] then 0
    else Height(cells[..|cells| - 1], col) + if cells[|cells| - 1].0 == col then 1 else 0
  }

  // Each cell sits on top of the earlier ones of its column.
  predicate Stacked(cells: seq<(nat, nat)>) {
    forall j :: 0 <= j < |cells| ==> cells[j].1 == Height(cells[..j], cells[j].0)
  }

  predicate Filled(cells: seq<(nat, nat)>, rows: map<nat, nat>) {
    && Stacked(cells) && NoDup(cells)
    && (forall c :: c in cells ==> c.0 in rows && c.1 < rows[c.0])
  }

  ghost predicate Counted(cells: seq<(nat, nat)>, rows: map<nat, nat>) {
    forall col :: Height(cells, col) == if col in rows then rows[col] else 0
  }

  lemma HeightNext(cells: seq<(nat, nat)>, cell: (nat, nat), col: nat)
    ensures Height(cells + [cell], col) == Height(cells, col) + if cell.0 == col then 1 else 0
  {
    assert (cells + [cell])[..|cells|] == cells;
  }

  lemma StackedNext(cells: seq<(nat, nat)>, cell: (nat, nat))
    requires Stacked(cells) && cell.1 == Height(cells, cell.0)
    ensures Stacked(cells + [cell])
  {
    hide Height;
    var next := cells + [cell];
    assert forall j :: 0 <= j < |next| ==> next[..j] == cells[..j];
    assert cells[..|cells|] == cells;
  }

  lemma CountedNext(cells: seq<(nat, nat)>, rows: map<nat, nat>, col: nat)
    requires Counted(cells, rows)
    ensures var row := if col in rows then rows[col] else 0; Counted(cells + [(col, row)], rows[col := row + 1])
  {
    var row := if col in rows then rows[col] else 0;
    forall c: nat ensures Height(cells + [(col, row)], c) == if c in rows[col := row + 1] then rows[col := row + 1][c] else 0 {
      HeightNext(cells, (col, row), c);
    }
  }

  lemma FilledNext(cells: seq<(nat, nat)>, rows: map<nat, nat>, col: nat)
    requires Filled(cells, rows) && Counted(cells, rows)
    ensures var row := if col in rows then rows[col] else 0; Filled(cells + [(col, row)], rows[col := row + 1])
  {
    var row := if col in rows then rows[col] else 0;
    assert Height(cells, col) == row;
    hide Counted, Height;
    NoDupConcat(cells, [(col, row)]);
    StackedNext(cells, (col, row));
    hide Stacked, NoDup;
  }

  ghost predicate DepthsMatch(refs: seq<TaskRef>, cells: seq<(nat, nat)>) {
    |cells| <= |refs| && forall j :: 0 <= j < |cells| ==> IsDepth(refs, refs[j].key, cells[j].0)
  }

  lemma DepthsMatchNext(refs: seq<TaskRef>, cells: seq<(nat, nat)>, col: nat, row: nat)
    requires DepthsMatch(refs, cells) && |cells| < |refs| && IsDepth(refs, refs[|cells|].key, col)
    ensures DepthsMatch(refs, cells + [(col, row)])
  {
    hide IsDepth;
  }

  // The column and row of each reference, in order: rows fill up column by column.
  method Cells(refs: seq<TaskRef>) returns (cells: seq<(nat, nat)>)
    ensures |cells| == |refs| && NoDup(cells) && Stacked(cells)
    ensures Acyclic(refs) ==> DepthsMatch(refs, cells)
  {
    var depths := new Depths(refs);
    var rows: map<nat, nat> := map[];
    cells := [];
    for i := 0 to |refs|
      invariant depths.Valid() && depths.visiting == {} && depths.refs == refs && |cells| == i
      invariant Filled(cells, rows) && Counted(cells, rows)
      invariant Acyclic(refs) ==> DepthsMatch(refs, cells)
    {
      hide IsDepth, Acyclic, Filled, Counted, DepthsMatch;
      assert refs[i] in refs;
      var col := depths.DepthOf(refs[i].key);
      FilledNext(cells, rows, col);
      CountedNext(cells, rows, col);
      var row := if col in rows then rows[col] else 0;
      if Acyclic(refs) { DepthsMatchNext(refs, cells, col, row); }
      cells, rows := cells + [(col, row)], rows[col := row + 1];
    }
  }

  lemma ColumnsGrow(refs: seq<TaskRef>, d: string, k: string, x: int, y: int)
    requires Edge(refs, d, k) && InColumn(refs, d, x) && InColumn(refs, k, y)
    ensures x + COLUMN <= y
  {
    hide IsDepth, Edge;
    var n: nat :| IsDepth(refs, d, n) && x == At((n, 0)).x;
    var m: nat :| IsDepth(refs, k, m) && y == At((m, 0)).x;
    DepthsGrow(refs, d, k, n, m);
  }

  // So every edge between nodes points to a strictly larger column.
  lemma EdgesPointRight(refs: seq<TaskRef>, q: seq<TaskRef>, i: nat, j: nat)
    requires |q| == |refs| && i < |q| && j < |q| && Edge(refs, refs[i].key, refs[j].key)
    requires forall h :: 0 <= h < |q| ==> InColumn(refs, refs[h].key, q[h].position.x)
    ensures q[i].position.x + COLUMN <= q[j].position.x
  {
    hide *;
    ColumnsGrow(refs, refs[i].key, refs[j].key, q[i].position.x, q[j].position.x);
  }
}
