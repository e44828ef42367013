// sorted(..., key=...): the stable insertion of one element after another, and what any such order gives.
module Sorting {
  import opened Basics

  ghost predicate IsOrder<T(!new)>(leq: (T, T) -> bool) {
    && (forall a, b :: leq(a, b) || leq(b, a))
    && (forall a, b, c :: leq(a, b) && leq(b, c) ==> leq(a, c))
  }

  ghost predicate Sorted<T>(leq: (T, T) -> bool, s: seq<T>) { forall i, j :: 0 <= i < j < |s| ==> leq(s[i], s[j]) }

  function Insert<T>(leq: (T, T) -> bool, s: seq<T>, x: T): seq<T> {
    if s == [] || !leq(s[0], x) then [x] + s else [s[0]] + Insert(leq, s[1..], x)
  }

  function Sort<T>(leq: (T, T) -> bool, s: seq<T>): seq<T> {
    if s == [] then [] else Insert(leq, Sort(leq, s[..|s| - 1]), s[|s| - 1])
  }

  lemma {:induction false} InsertMembers<T>(leq: (T, T) -> bool, s: seq<T>, x: T)
    ensures forall y :: y in Insert(leq, s, x) <==> y in s || y == x
  {
    if !(s == [] || !leq(s[0], x)) {
      InsertMembers(leq, s[1..], x);
      assert s == [s[0]] + s[1..];
    }
  }

  lemma {:induction false} InsertNoDup<T>(leq: (T, T) -> bool, s: seq<T>, x: T)
    requires NoDup(s) && x !in s
    ensures NoDup(Insert(leq, s, x))
  {
    if s == [] || !leq(s[0], x) {
      NoDupConcat([x], s);
    } else {
      InsertNoDup(leq, s[1..], x);
      InsertMembers(leq, s[1..], x);
      NoDupConcat([s[0]], Insert(leq, s[1..], x));
    }
  }

  lemma {:induction false} InsertSorted<T(!new)>(leq: (T, T) -> bool, s: seq<T>, x: T)
    requires IsOrder(leq) && Sorted(leq, s)
    ensures Sorted(leq, Insert(leq, s, x))
  {
    if s != [] && leq(s[0], x) {
      var rest := s[1..];
      InsertSorted(leq, rest, x);
      InsertMembers(leq, rest, x);
      forall y | y in Insert(leq, rest, x) ensures leq(s[0], y) {
        if y != x {
          var i :| 0 <= i < |rest| && rest[i] == y;
          assert s[i + 1] == y;
        }
      }
    } else if s != [] {
      forall j | 0 <= j < |s| ensures leq(x, s[j]) { assert leq(x, s[0]) && (j > 0 ==> leq(s[0], s[j])); }
    }
  }

  lemma {:induction false} SortMembers<T>(leq: (T, T) -> bool, s: seq<T>)
    ensures forall y :: y in Sort(leq, s) <==> y in s
  {
    if s != [] {
      var n := |s| - 1;
      assert s == s[..n] + [s[n]];
      SortMembers(leq, s[..n]);
      InsertMembers(leq, Sort(leq, s[..n]), s[n]);
    }
  }

  lemma {:induction false} SortNoDup<T>(leq: (T, T) -> bool, s: seq<T>)
    requires NoDup(s)
    ensures NoDup(Sort(leq, s))
  {
    if s != [] {
      var n := |s| - 1;
      SortNoDup(leq, s[..n]);
      SortMembers(leq, s[..n]);
      InsertNoDup(leq, Sort(leq, s[..n]), s[n]);
    }
  }

  lemma {:induction false} SortSorted<T(!new)>(leq: (T, T) -> bool, s: seq<T>)
    requires IsOrder(leq)
    ensures Sorted(leq, Sort(leq, s))
  {
    if s != [] {
      SortSorted(leq, s[..|s| - 1]);
      InsertSorted(leq, Sort(leq, s[..|s| - 1]), s[|s| - 1]);
    }
  }

  // The least element comes first.
  lemma HeadIsLeast<T(!new)>(leq: (T, T) -> bool, s: seq<T>)
    requires IsOrder(leq) && Sorted(leq, s) && s != []
    ensures forall y :: y in s ==> leq(s[0], y)
  {
    forall y | y in s ensures leq(s[0], y) { var i :| 0 <= i < |s| && s[i] == y; }
  }

  lemma TailMembers<T>(s: seq<T>)
    requires NoDup(s) && s != []
    ensures NoDup(s[1..]) && forall y :: y in s[1..] <==> y in s && y != s[0]
  {
    assert s == [s[0]] + s[1..];
    forall y | y in s[1..] ensures y != s[0] { var i :| 0 <= i < |s| - 1 && s[1..][i] == y; }
  }

  // With no ties a sorted sequence is determined by its elements.
  lemma {:induction false} SortedIsUnique<T(!new)>(leq: (T, T) -> bool, a: seq<T>, b: seq<T>)
    requires IsOrder(leq) && forall x, y :: x in a && y in a && leq(x, y) && leq(y, x) ==> x == y
    requires Sorted(leq, a) && Sorted(leq, b) && NoDup(a) && NoDup(b)
    requires forall x :: x in a <==> x in b
    ensures a == b
  {
    assert b != [] ==> b[0] in a;
    if a != [] {
      assert a[0] in b;
      HeadIsLeast(leq, a);
      HeadIsLeast(leq, b);
      assert a[0] == b[0];
      TailMembers(a);
      TailMembers(b);
      SortedIsUnique(leq, a[1..], b[1..]);
    }
  }

  // ---- Python's order of strings ----

  predicate LexLeq(a: string, b: string) {
    a == [] || (b != [] && (a[0] < b[0] || (a[0] == b[0] && LexLeq(a[1..], b[1..]))))
  }

  lemma {:induction false} LexTotal(a: string, b: string)
    ensures LexLeq(a, b) || LexLeq(b, a)
    ensures LexLeq(a, b) && LexLeq(b, a) ==> a == b
  {
    if a != [] && b != [] && a[0] == b[0] {
      LexTotal(a[1..], b[1..]);
      assert a == [a[0]] + a[1..] && b == [b[0]] + b[1..];
    }
  }

  lemma {:induction false} LexTransitive(a: string, b: string, c: string)
    requires LexLeq(a, b) && LexLeq(b, c)
    ensures LexLeq(a, c)
  {
    if a != [] && a[0] == b[0] == c[0] { LexTransitive(a[1..], b[1..], c[1..]); }
  }

  // ---- ids by a key, equal keys by the id itself ----

  function KeyOf(key: map<string, int>, x: string): int { if x in key then key[x] else 0 }

  function ByKey(key: map<string, int>): (string, string) -> bool {
    (a, b) => KeyOf(key, a) < KeyOf(key, b) || (KeyOf(key, a) == KeyOf(key, b) && LexLeq(a, b))
  }

  lemma ByKeyIsOrder(key: map<string, int>)
    ensures IsOrder(ByKey(key))
    ensures forall a, b :: ByKey(key)(a, b) && ByKey(key)(b, a) ==> a == b
  {
    var leq := ByKey(key);
    forall a, b ensures leq(a, b) || leq(b, a) { LexTotal(a, b); }
    forall a, b | leq(a, b) && leq(b, a) ensures a == b { LexTotal(a, b); }
    forall a, b, c | leq(a, b) && leq(b, c) ensures leq(a, c) {
      if LexLeq(a, b) && LexLeq(b, c) { LexTransitive(a, b, c); }
    }
  }

  // Only one sequence of given ids is in the order of their keys.
  lemma ByKeyIsUnique(key: map<string, int>, a: seq<string>, b: seq<string>)
    requires Sorted(ByKey(key), a) && Sorted(ByKey(key), b) && NoDup(a) && NoDup(b)
    requires forall x :: x in a <==> x in b
    ensures a == b
  {
    ByKeyIsOrder(key);
    SortedIsUnique(ByKey(key), a, b);
  }

  // The ids of `ids`, each once, by key and then by id.
  method SortIds(key: map<string, int>, ids: set<string>) returns (s: seq<string>)
    requires ids <= key.Keys
    ensures NoDup(s) && Sorted(ByKey(key), s) && forall x :: x in s <==> x in ids
  {
    ByKeyIsOrder(key);
    s := [];
    var todo := ids;
    while todo != {}
      invariant todo <= ids
      invariant NoDup(s) && Sorted(ByKey(key), s) && forall x :: x in s <==> x in ids && x !in todo
      decreases todo
    {
      var x :| x in todo;
      InsertMembers(ByKey(key), s, x);
      InsertNoDup(ByKey(key), s, x);
      InsertSorted(ByKey(key), s, x);
      s, todo := Insert(ByKey(key), s, x), todo - {x};
    }
  }

  // The ids of `ids`, each once, in no particular order.
  method ListIds(ids: set<string>) returns (s: seq<string>)
    ensures NoDup(s) && forall x :: x in s <==> x in ids
  {
    s := [];
    var todo := ids;
    while todo != {}
      invariant todo <= ids && NoDup(s) && forall x :: x in s <==> x in ids && x !in todo
      decreases todo
    {
      var x :| x in todo;
      NoDupConcat(s, [x]);
      s, todo := s + [x], todo - {x};
    }
  }
}
