// Taking secret values out of what a run stores (src/booth_pipeline/task_secrets.py): every occurrence of every
// registered value is replaced by "[secret NAME]", longest values first, in text and throughout JSON.
module Redactor {
  import opened Basics
  import opened Sorting

  datatype Rule = Rule(value: string, name: string)

  function Body(name: string): string { "secret " + name }

  function Bracketed(s: string): string { ['['] + s + [']'] }

  function Marker(name: string): string { Bracketed(Body(name)) }

  // ---- str.replace and `in` ----

  predicate OccursAt(s: string, v: string, i: nat) { i + |v| <= |s| && s[i..i + |v|] == v }

  predicate Contains(s: string, v: string) { exists i :: 0 <= i <= |s| && OccursAt(s, v, i) }

  function Replace(s: string, v: string, m: string): string
    requires v != []
  {
    if s == [] then []
    else if v <= s then m + Replace(s[|v|..], v, m)
    else [s[0]] + Replace(s[1..], v, m)
  }

  // What str.split leaves between the occurrences that str.replace replaces.
  function Parts(s: string, v: string): (ps: seq<string>)
    requires v != []
    ensures ps != [] && ps[0] <= s
  {
    if s == [] then [[]]
    else if v <= s then [[]] + Parts(s[|v|..], v)
    else var r := Parts(s[1..], v); [[s[0]] + r[0]] + r[1..]
  }

  function Join(ps: seq<string>, m: string): string
    requires ps != []
  {
    if |ps| == 1 then ps[0] else ps[0] + m + Join(ps[1..], m)
  }

  lemma JoinPrepend(c: char, ps: seq<string>, m: string)
    requires ps != []
    ensures Join([[c] + ps[0]] + ps[1..], m) == [c] + Join(ps, m)
  {
    var qs := [[c] + ps[0]] + ps[1..];
    assert qs[1..] == ps[1..];
    if |ps| > 1 {
      assert [c] + ps[0] + m + Join(ps[1..], m) == [c] + (ps[0] + m + Join(ps[1..], m));
    }
  }

  lemma JoinEmpty(ps: seq<string>, m: string)
    requires ps != []
    ensures Join([[]] + ps, m) == m + Join(ps, m)
  {
    assert ([[]] + ps)[1..] == ps;
  }

  lemma {:induction false} ReplaceIsJoin(s: string, v: string, m: string)
    requires v != []
    ensures Replace(s, v, m) == Join(Parts(s, v), m)
  {
    if s == [] {
    } else if v <= s {
      ReplaceIsJoin(s[|v|..], v, m);
      JoinEmpty(Parts(s[|v|..], v), m);
      hide Join;
    } else {
      ReplaceIsJoin(s[1..], v, m);
      JoinPrepend(s[0], Parts(s[1..], v), m);
      hide Join;
    }
  }

  // Replacing by the value itself changes nothing: only the value is taken out.
  lemma {:induction false} ReplaceBySelf(s: string, v: string)
    requires v != []
    ensures Replace(s, v, v) == s
  {
    if s == [] {
    } else if v <= s {
      ReplaceBySelf(s[|v|..], v);
    } else {
      ReplaceBySelf(s[1..], v);
    }
  }

  lemma PartsRebuild(s: string, v: string)
    requires v != []
    ensures Join(Parts(s, v), v) == s
  {
    ReplaceIsJoin(s, v, v);
    ReplaceBySelf(s, v);
  }

  lemma ContainsShift(s: string, v: string, n: nat)
    requires n <= |s| && Contains(s[n..], v)
    ensures Contains(s, v)
  {
    var i :| 0 <= i <= |s[n..]| && OccursAt(s[n..], v, i);
    assert s[n..][i..i + |v|] == s[n + i..n + i + |v|];
    assert OccursAt(s, v, n + i);
  }

  lemma ContainsPrefix(p: string, s: string, v: string)
    requires p <= s && Contains(p, v)
    ensures Contains(s, v)
  {
    var i :| 0 <= i <= |p| && OccursAt(p, v, i);
    assert p == s[..|p|];
    assert p[i..i + |v|] == s[i..i + |v|];
    assert OccursAt(s, v, i);
  }

  // No part contains the value, nor anything the text did not.
  lemma {:induction false} PartsAreFree(s: string, v: string, w: string, k: nat)
    requires v != [] && k < |Parts(s, v)|
    ensures !Contains(Parts(s, v)[k], v)
    ensures Contains(Parts(s, v)[k], w) ==> Contains(s, w)
  {
    var ps := Parts(s, v);
    if s == [] {
    } else if v <= s {
      if k > 0 {
        PartsAreFree(s[|v|..], v, w, k - 1);
        if Contains(ps[k], w) { ContainsShift(s, w, |v|); }
      } else if Contains(ps[0], w) {
        ContainsPrefix(ps[0], s, w);
      }
    } else if k > 0 {
      PartsAreFree(s[1..], v, w, k);
      if Contains(ps[k], w) { ContainsShift(s, w, 1); }
    } else {
      PartsAreFree(s[1..], v, w, 0);
      if Contains(ps[0], w) { ContainsPrefix(ps[0], s, w); }
      FirstPartIsFree(s, v);
    }
  }

  lemma ContainsTail(p: string, v: string)
    requires Contains(p, v) && v != []
    ensures v <= p || (p != [] && Contains(p[1..], v))
  {
    var i :| 0 <= i <= |p| && OccursAt(p, v, i);
    if i > 0 {
      assert p[1..][i - 1..i - 1 + |v|] == p[i..i + |v|];
      assert OccursAt(p[1..], v, i - 1);
    }
  }

  lemma FirstPartIsFree(s: string, v: string)
    requires v != [] && s != [] && !(v <= s) && !Contains(Parts(s[1..], v)[0], v)
    ensures !Contains(Parts(s, v)[0], v)
  {
    var p := Parts(s, v)[0];
    assert p[1..] == Parts(s[1..], v)[0] && !(v <= p);
    hide Contains, Parts;
    if Contains(p, v) { ContainsTail(p, v); }
  }

  lemma AbsentTail(s: string, v: string)
    requires v != [] && s != [] && !Contains(s, v)
    ensures !(v <= s) && !Contains(s[1..], v)
  {
    if v <= s { assert OccursAt(s, v, 0); }
    if Contains(s[1..], v) { ContainsShift(s, v, 1); }
  }

  lemma {:induction false} ReplaceNothing(s: string, v: string, m: string)
    requires v != [] && !Contains(s, v)
    ensures Replace(s, v, m) == s
  {
    if s == [] {
      assert Replace([], v, m) == [];
    } else {
      hide Replace, Contains;
      AbsentTail(s, v);
      ReplaceNothing(s[1..], v, m);
      assert s == [s[0]] + s[1..];
      ReplacePastFront(s[0], s[1..], v, m);
    }
  }

  // A character the value lacks cuts the text: nothing is replaced across it.
  lemma ReplaceCut(a: string, c: char, b: string, v: string, m: string)
    requires v != [] && c !in v
    ensures Replace(a + [c] + b, v, m) == Replace(a, v, m) + [c] + Replace(b, v, m)
  {
    var rest := [c] + b;
    forall h | 0 <= h <= |a| < h + |v| ensures !(v <= a[h..] + rest) {
      assert (a[h..] + rest)[|a| - h] == c;
    }
    assert a[|a|..] + rest == rest && a + [c] + b == a + rest;
    hide Replace;
    ReplaceWithin(a, rest, v, m);
    ReplacePastFront(c, b, v, m);
  }

  // A value that does not touch a marker: it neither runs into it from the left, nor out of it to the right, nor
  // contains it. It may still occur strictly inside.
  predicate Apart(v: string, m: string) {
    && (forall k :: 0 <= k < |v| ==> !(v[k..] <= m))
    && (forall k :: 0 < k <= |v| ==> !EndsWith(m, v[..k]))
    && !Contains(v, m)
  }

  predicate EndsWith(s: string, t: string) { |t| <= |s| && s[|s| - |t|..] == t }

  // A text that runs on from `a` into `m`: what it takes of `m`.
  lemma RunsIn(a: string, m: string, b: string, v: string)
    requires |a| < |v|
    ensures v <= a + m + b ==> v[|a|..] <= m || Contains(v, m)
  {
    var k := |a|;
    if v <= a + m + b {
      assert v == (a + m + b)[..|v|];
      if |v| - k <= |m| {
        assert v[k..] == m[..|v| - k];
      } else {
        assert v[k..k + |m|] == m;
        assert OccursAt(v, m, k);
      }
    }
  }

  lemma RunsOut(t: string, h: nat, b: string, v: string)
    requires h <= |t| < h + |v|
    ensures v <= t[h..] + [']'] + b ==> EndsWith(Bracketed(t), v[..|t| - h + 1])
  {
    var m, s, k := Bracketed(t), t[h..] + [']'] + b, |t| - h + 1;
    if v <= s {
      assert v == s[..|v|];
      assert v[..k] == s[..k] == t[h..] + [']'] == m[|m| - k..];
    }
  }

  lemma NotAcrossTheLeft(a: string, t: string, b: string, v: string)
    requires Apart(v, Bracketed(t)) && |a| < |v|
    ensures !(v <= a + Bracketed(t) + b)
  {
    RunsIn(a, Bracketed(t), b, v);
  }

  lemma NotAcrossTheRight(t: string, h: nat, b: string, v: string)
    requires Apart(v, Bracketed(t)) && h <= |t| < h + |v|
    ensures !(v <= t[h..] + [']'] + b)
  {
    RunsOut(t, h, b, v);
  }

  lemma ReplaceAtFront(w: string, v: string, x: string)
    requires v != []
    ensures Replace(v + w, v, x) == x + Replace(w, v, x)
  {
    assert (v + w)[|v|..] == w;
  }

  lemma ReplacePastFront(c: char, w: string, v: string, x: string)
    requires v != [] && !(v <= [c] + w)
    ensures Replace([c] + w, v, x) == [c] + Replace(w, v, x)
  {
    assert ([c] + w)[1..] == w;
  }

  // An occurrence at the front of u + rest lies within u.
  predicate StaysWithin(u: string, rest: string, v: string) {
    forall h :: 0 <= h <= |u| < h + |v| ==> !(v <= u[h..] + rest)
  }

  lemma StaysWithinTail(u: string, rest: string, v: string, n: nat)
    requires StaysWithin(u, rest, v) && n <= |u|
    ensures StaysWithin(u[n..], rest, v)
  {
    forall h | 0 <= h <= |u[n..]| < h + |v| ensures !(v <= u[n..][h..] + rest) {
      assert u[n..][h..] == u[n + h..];
    }
  }

  lemma StaysWithinFront(u: string, rest: string, v: string)
    requires StaysWithin(u, rest, v)
    ensures v <= u + rest ==> |v| <= |u| && v <= u
  {
    assert u[0..] == u;
    if |v| <= |u| { assert (u + rest)[..|v|] == u[..|v|]; }
  }

  // Once no occurrence runs over its end, a text is replaced on its own.
  lemma {:induction false} ReplaceWithin(u: string, rest: string, v: string, x: string)
    requires v != [] && StaysWithin(u, rest, v)
    ensures Replace(u + rest, v, x) == Replace(u, v, x) + Replace(rest, v, x)
    decreases |u|
  {
    if u == [] {
      assert u + rest == rest;
    } else {
      hide Replace, StaysWithin;
      StaysWithinFront(u, rest, v);
      if v <= u + rest {
        var w := u[|v|..];
        StaysWithinTail(u, rest, v, |v|);
        ReplaceWithin(w, rest, v, x);
        assert u == v + w;
        WithinAtFront(w, rest, v, x);
      } else {
        StaysWithinTail(u, rest, v, 1);
        ReplaceWithin(u[1..], rest, v, x);
        assert u == [u[0]] + u[1..];
        WithinPastFront(u[0], u[1..], rest, v, x);
      }
    }
  }

  lemma WithinAtFront(w: string, rest: string, v: string, x: string)
    requires v != [] && Replace(w + rest, v, x) == Replace(w, v, x) + Replace(rest, v, x)
    ensures Replace((v + w) + rest, v, x) == Replace(v + w, v, x) + Replace(rest, v, x)
  {
    hide Replace;
    assert (v + w) + rest == v + (w + rest);
    ReplaceAtFront(w, v, x);
    ReplaceAtFront(w + rest, v, x);
  }

  lemma WithinPastFront(c: char, w: string, rest: string, v: string, x: string)
    requires v != [] && Replace(w + rest, v, x) == Replace(w, v, x) + Replace(rest, v, x)
    requires !(v <= ([c] + w) + rest)
    ensures Replace(([c] + w) + rest, v, x) == Replace([c] + w, v, x) + Replace(rest, v, x)
  {
    hide Replace;
    assert ([c] + w) + rest == [c] + (w + rest);
    ReplacePastFront(c, w, v, x);
    ReplacePastFront(c, w + rest, v, x);
  }

  lemma ReplaceInsideOut(t: string, b: string, v: string, x: string)
    requires v != [] && Apart(v, Bracketed(t))
    ensures Replace(t + ([']'] + b), v, x) == Replace(t, v, x) + ([']'] + Replace(b, v, x))
  {
    forall h | 0 <= h <= |t| < h + |v| ensures !(v <= t[h..] + ([']'] + b)) {
      NotAcrossTheRight(t, h, b, v);
      assert t[h..] + [']'] + b == t[h..] + ([']'] + b);
    }
    assert t[|t|..] + ([']'] + b) == [']'] + b;
    ReplacePastFront(']', b, v, x);
    hide Replace, Apart;
    ReplaceWithin(t, [']'] + b, v, x);
  }

  // Replacing works on what comes before a marker, on its inside and on what follows, each on its own.
  lemma ReplaceAround(a: string, t: string, b: string, v: string, x: string)
    requires v != [] && Apart(v, Bracketed(t))
    ensures Replace(a + Bracketed(t) + b, v, x) == Replace(a, v, x) + Bracketed(Replace(t, v, x)) + Replace(b, v, x)
  {
    var inside, rest := t + ([']'] + b), Bracketed(t) + b;
    assert rest == ['['] + inside && a + Bracketed(t) + b == a + rest;
    assert StaysWithin(a, rest, v) && !(v <= rest) by { MarkerIsNotEntered(a, t, b, v); }
    ReplaceInsideOut(t, b, v, x);
    hide Replace, Apart, StaysWithin;
    ReplaceWithin(a, rest, v, x);
    ReplacePastFront('[', inside, v, x);
    BracketedPlus(Replace(t, v, x), Replace(b, v, x));
  }

  lemma BracketedPlus(t: string, b: string)
    ensures ['['] + (t + ([']'] + b)) == Bracketed(t) + b
  {
  }

  lemma MarkerIsNotEntered(a: string, t: string, b: string, v: string)
    requires v != [] && Apart(v, Bracketed(t))
    ensures StaysWithin(a, Bracketed(t) + b, v) && !(v <= Bracketed(t) + b)
  {
    var rest := Bracketed(t) + b;
    hide Apart;
    forall h | 0 <= h <= |a| < h + |v| ensures !(v <= a[h..] + rest) {
      NotAcrossTheLeft(a[h..], t, b, v);
      assert a[h..] + Bracketed(t) + b == a[h..] + rest;
    }
    assert a[|a|..] + rest == rest;
  }

  lemma OccursWhere(a: string, t: string, b: string, v: string, i: nat)
    requires v != [] && Apart(v, Bracketed(t)) && OccursAt(a + Bracketed(t) + b, v, i)
    ensures Contains(a, v) || Contains(t, v) || Contains(b, v)
  {
    var s, m := a + Bracketed(t) + b, Bracketed(t);
    if i + |v| <= |a| {
      assert a[i..i + |v|] == s[i..i + |v|];
      assert OccursAt(a, v, i);
    } else if i <= |a| {
      assert s[i..] == a[i..] + m + b && v <= s[i..];
      NotAcrossTheLeft(a[i..], t, b, v);
    } else if i >= |a| + |m| {
      assert b[i - |a| - |m|..i - |a| - |m| + |v|] == s[i..i + |v|];
      assert OccursAt(b, v, i - |a| - |m|);
    } else {
      InsideWhere(a, t, b, v, i);
    }
  }

  lemma InsideWhere(a: string, t: string, b: string, v: string, i: nat)
    requires v != [] && Apart(v, Bracketed(t)) && OccursAt(a + Bracketed(t) + b, v, i) && |a| < i < |a| + |t| + 2
    ensures Contains(t, v)
  {
    var s, h := a + Bracketed(t) + b, i - |a| - 1;
    assert s == (a + ['[']) + (t + [']'] + b);
    var inside := t + [']'] + b;
    assert s[i..] == inside[h..] && inside[h..] == t[h..] + [']'] + b;
    assert v == s[i..][..|v|];
    if |t| < h + |v| { NotAcrossTheRight(t, h, b, v); }
    assert v <= t[h..] + [']'] + b;
    OccursEarly(t, h, [']'] + b, v);
  }

  lemma OccursEarly(t: string, h: nat, rest: string, v: string)
    requires h + |v| <= |t| && v <= t[h..] + rest
    ensures Contains(t, v)
  {
    assert v == t[h..h + |v|];
    assert OccursAt(t, v, h);
  }

  lemma ContainsAround(a: string, t: string, b: string, v: string)
    requires v != [] && Apart(v, Bracketed(t))
    ensures Contains(a + Bracketed(t) + b, v) <==> Contains(a, v) || Contains(t, v) || Contains(b, v)
  {
    var s := a + Bracketed(t) + b;
    assert a <= s && s[|a| + 1..] == t + [']'] + b && s[|a| + |t| + 2..] == b;
    if Contains(a, v) { ContainsPrefix(a, s, v); }
    if Contains(t, v) { ContainsPrefix(t, s[|a| + 1..], v); ContainsShift(s, v, |a| + 1); }
    if Contains(b, v) { ContainsShift(s, v, |a| + |t| + 2); }
    if Contains(s, v) {
      var i :| 0 <= i <= |s| && OccursAt(s, v, i);
      OccursWhere(a, t, b, v, i);
    }
  }

  // ---- text: every rule in turn ----

  function TextFrom(rules: seq<Rule>, i: nat, s: string): string
    requires i <= |rules| && AllNonEmpty(rules)
    decreases |rules| - i
  {
    if i == |rules| then s else TextFrom(rules, i + 1, Replace(s, rules[i].value, Marker(rules[i].name)))
  }

  predicate AllNonEmpty(rules: seq<Rule>) { forall r :: r in rules ==> r.value != [] }

  function Text(rules: seq<Rule>, s: string): string
    requires AllNonEmpty(rules)
  {
    TextFrom(rules, 0, s)
  }

  predicate NoBrackets(rules: seq<Rule>) { forall r :: r in rules ==> '[' !in r.value && ']' !in r.value }

  predicate Clean(rules: seq<Rule>, s: string) { forall r :: r in rules ==> !Contains(s, r.value) }

  predicate LongestFirst(rules: seq<Rule>) {
    forall i, j :: 0 <= i < j < |rules| ==> |rules[i].value| >= |rules[j].value| && rules[i].value != rules[j].value
  }

  // No value is left in the output, whatever the input.
  ghost predicate Complete(rules: seq<Rule>)
    requires AllNonEmpty(rules)
  {
    forall s :: Clean(rules, Text(rules, s))
  }

  // What becomes of the inside of rule j's marker under the rules that follow.
  function Inside(rules: seq<Rule>, j: nat): string
    requires j < |rules| && AllNonEmpty(rules)
  {
    TextFrom(rules, j + 1, Body(rules[j].name))
  }

  predicate MarkersClean(rules: seq<Rule>)
    requires AllNonEmpty(rules)
  {
    forall j :: 0 <= j < |rules| ==> Clean(rules, Inside(rules, j))
  }

  // From rule i on, no rule's value touches the marker, whatever the rules before it have made of its inside.
  predicate StaysApart(rules: seq<Rule>, i: nat, inside: string)
    requires i <= |rules| && AllNonEmpty(rules)
    decreases |rules| - i
  {
    i < |rules| ==>
      && Apart(rules[i].value, Bracketed(inside))
      && StaysApart(rules, i + 1, Replace(inside, rules[i].value, Marker(rules[i].name)))
  }

  // No value touches a marker, neither while the rules are applied nor in the result.
  predicate Separate(rules: seq<Rule>)
    requires AllNonEmpty(rules)
  {
    && (forall j :: 0 <= j < |rules| ==> StaysApart(rules, j + 1, Body(rules[j].name)))
    && (forall r, j :: r in rules && 0 <= j < |rules| ==> Apart(r.value, Bracketed(Inside(rules, j))))
  }

  lemma {:induction false} TextAround(rules: seq<Rule>, i: nat, a: string, t: string, b: string)
    requires i <= |rules| && AllNonEmpty(rules) && StaysApart(rules, i, t)
    ensures TextFrom(rules, i, a + Bracketed(t) + b) == TextFrom(rules, i, a) + Bracketed(TextFrom(rules, i, t)) + TextFrom(rules, i, b)
    decreases |rules| - i
  {
    if i < |rules| {
      var v, m := rules[i].value, Marker(rules[i].name);
      assert rules[i] in rules;
      ReplaceAround(a, t, b, v, m);
      TextAround(rules, i + 1, Replace(a, v, m), Replace(t, v, m), Replace(b, v, m));
    }
  }

  // A value without brackets touches no marker.
  lemma NoBracketsIsApart(v: string, inside: string)
    requires '[' !in v && ']' !in v
    ensures Apart(v, Bracketed(inside))
  {
    var m := Bracketed(inside);
    forall k | 0 <= k < |v| ensures !(v[k..] <= m) { assert v[k..][0] in v; }
    forall k | 0 < k <= |v| ensures !EndsWith(m, v[..k]) { assert v[..k][k - 1] in v && m[|m| - 1] == ']'; }
    if Contains(v, m) { ContainsItsCharacters(v, m, '['); }
  }

  lemma {:induction false} NoBracketsStaysApart(rules: seq<Rule>, i: nat, inside: string)
    requires i <= |rules| && AllNonEmpty(rules) && NoBrackets(rules)
    ensures StaysApart(rules, i, inside)
    decreases |rules| - i
  {
    if i < |rules| {
      assert rules[i] in rules;
      NoBracketsIsApart(rules[i].value, inside);
      NoBracketsStaysApart(rules, i + 1, Replace(inside, rules[i].value, Marker(rules[i].name)));
    }
  }

  lemma NoBracketsIsSeparate(rules: seq<Rule>)
    requires AllNonEmpty(rules) && NoBrackets(rules)
    ensures Separate(rules)
  {
    forall j | 0 <= j < |rules| ensures StaysApart(rules, j + 1, Body(rules[j].name)) {
      NoBracketsStaysApart(rules, j + 1, Body(rules[j].name));
    }
    forall r, j | r in rules && 0 <= j < |rules| ensures Apart(r.value, Bracketed(Inside(rules, j))) {
      NoBracketsIsApart(r.value, Inside(rules, j));
    }
  }

  // A condition on the registered names and values alone: no value touches a marker or occurs in one.
  predicate Untouched(rules: seq<Rule>) {
    forall r, q :: r in rules && q in rules ==> Apart(r.value, Marker(q.name)) && !Contains(Body(q.name), r.value)
  }

  lemma {:induction false} UntouchedStaysApart(rules: seq<Rule>, i: nat, q: Rule)
    requires i <= |rules| && AllNonEmpty(rules) && Untouched(rules) && q in rules
    ensures StaysApart(rules, i, Body(q.name))
    decreases |rules| - i
  {
    if i < |rules| {
      assert rules[i] in rules;
      ReplaceNothing(Body(q.name), rules[i].value, Marker(rules[i].name));
      UntouchedStaysApart(rules, i + 1, q);
    }
  }

  lemma UntouchedIsSeparate(rules: seq<Rule>)
    requires AllNonEmpty(rules) && Untouched(rules)
    ensures Separate(rules) && MarkersClean(rules)
    ensures forall j :: 0 <= j < |rules| ==> Inside(rules, j) == Body(rules[j].name)
  {
    forall j | 0 <= j < |rules|
      ensures StaysApart(rules, j + 1, Body(rules[j].name)) && Inside(rules, j) == Body(rules[j].name) && Clean(rules, Body(rules[j].name))
    {
      assert rules[j] in rules;
      UntouchedStaysApart(rules, j + 1, rules[j]);
      CleanIsKept(rules, j + 1, Body(rules[j].name));
    }
    forall r, j | r in rules && 0 <= j < |rules| ensures Apart(r.value, Bracketed(Inside(rules, j))) {
      assert rules[j] in rules;
    }
  }

  lemma NoBracketsIsUntouched(rules: seq<Rule>)
    requires NoBrackets(rules) && forall r :: r in rules ==> Clean(rules, Body(r.name))
    ensures Untouched(rules)
  {
    forall r, q | r in rules && q in rules ensures Apart(r.value, Marker(q.name)) {
      NoBracketsIsApart(r.value, Body(q.name));
    }
  }

  function TextEach(rules: seq<Rule>, i: nat, ps: seq<string>): (qs: seq<string>)
    requires i <= |rules| && AllNonEmpty(rules)
    ensures |qs| == |ps| && forall k :: 0 <= k < |ps| ==> qs[k] == TextFrom(rules, i, ps[k])
  {
    seq(|ps|, k requires 0 <= k < |ps| => TextFrom(rules, i, ps[k]))
  }

  // The later rules work on the parts and inside the markers separately.
  lemma {:induction false} TextJoin(rules: seq<Rule>, i: nat, ps: seq<string>, body: string)
    requires i <= |rules| && AllNonEmpty(rules) && StaysApart(rules, i, body) && ps != []
    ensures TextFrom(rules, i, Join(ps, Bracketed(body))) == Join(TextEach(rules, i, ps), Bracketed(TextFrom(rules, i, body)))
    decreases |ps|
  {
    var qs := TextEach(rules, i, ps);
    if |ps| > 1 {
      TextJoin(rules, i, ps[1..], body);
      assert TextEach(rules, i, ps[1..]) == qs[1..];
      TextAround(rules, i, ps[0], body, Join(ps[1..], Bracketed(body)));
    }
  }

  lemma BracketedClean(rules: seq<Rule>, a: string, inside: string, b: string)
    requires AllNonEmpty(rules) && forall r :: r in rules ==> Apart(r.value, Bracketed(inside))
    ensures Clean(rules, a + Bracketed(inside) + b) <==> Clean(rules, a) && Clean(rules, inside) && Clean(rules, b)
  {
    forall r | r in rules
      ensures Contains(a + Bracketed(inside) + b, r.value) <==> Contains(a, r.value) || Contains(inside, r.value) || Contains(b, r.value)
    {
      ContainsAround(a, inside, b, r.value);
    }
  }

  lemma {:induction false} JoinClean(rules: seq<Rule>, ps: seq<string>, inside: string)
    requires AllNonEmpty(rules) && ps != [] && forall r :: r in rules ==> Apart(r.value, Bracketed(inside))
    requires Clean(rules, inside) && forall k :: 0 <= k < |ps| ==> Clean(rules, ps[k])
    ensures Clean(rules, Join(ps, Bracketed(inside)))
  {
    hide Clean;
    if |ps| > 1 {
      JoinClean(rules, ps[1..], inside);
      BracketedClean(rules, ps[0], inside, Join(ps[1..], Bracketed(inside)));
    }
  }

  lemma TextStep(rules: seq<Rule>, i: nat, s: string)
    requires i < |rules| && AllNonEmpty(rules) && Separate(rules) && rules[i].value != []
    ensures TextFrom(rules, i, s) == Join(TextEach(rules, i + 1, Parts(s, rules[i].value)), Bracketed(Inside(rules, i)))
  {
    ReplaceIsJoin(s, rules[i].value, Marker(rules[i].name));
    TextJoin(rules, i + 1, Parts(s, rules[i].value), Body(rules[i].name));
  }

  lemma {:induction false} TextIsClean(rules: seq<Rule>, i: nat, s: string)
    requires i <= |rules| && AllNonEmpty(rules) && Separate(rules) && MarkersClean(rules)
    requires forall k :: 0 <= k < i ==> !Contains(s, rules[k].value)
    ensures Clean(rules, TextFrom(rules, i, s))
    decreases |rules| - i
  {
    if i < |rules| {
      assert rules[i] in rules;
      var ps := Parts(s, rules[i].value);
      TextStep(rules, i, s);
      forall k | 0 <= k < |ps| ensures Clean(rules, TextFrom(rules, i + 1, ps[k])) {
        forall h | 0 <= h < i + 1 ensures !Contains(ps[k], rules[h].value) {
          PartsAreFree(s, rules[i].value, rules[h].value, k);
        }
        TextIsClean(rules, i + 1, ps[k]);
      }
      JoinClean(rules, TextEach(rules, i + 1, ps), Inside(rules, i));
    }
  }

  lemma {:induction false} TextOfNothing(rules: seq<Rule>, i: nat)
    requires i <= |rules| && AllNonEmpty(rules)
    ensures TextFrom(rules, i, []) == []
    decreases |rules| - i
  {
    if i < |rules| { TextOfNothing(rules, i + 1); }
  }

  lemma ContainedIsShorter(v: string, w: string)
    ensures Contains(v, w) ==> |w| < |v| || v == w
  {
    forall h | 0 <= h <= |v| && OccursAt(v, w, h) ensures |w| < |v| || v == w {
      if |w| == |v| { assert v[h..h + |w|] == v; }
    }
  }

  lemma ReplaceWhole(v: string, m: string)
    requires v != []
    ensures Replace(v, v, m) == m
  {
    assert v + [] == v;
    ReplaceAtFront([], v, m);
    assert Replace([], v, m) == [];
  }

  lemma Alone(t: string)
    ensures [] + Bracketed(t) + [] == Bracketed(t)
  {
  }

  lemma TextOfMarker(rules: seq<Rule>, j: nat)
    requires j < |rules| && AllNonEmpty(rules) && Separate(rules)
    ensures TextFrom(rules, j + 1, Marker(rules[j].name)) == Bracketed(Inside(rules, j))
  {
    var body := Body(rules[j].name);
    assert StaysApart(rules, j + 1, body);
    hide Separate, StaysApart, Apart;
    TextAround(rules, j + 1, [], body, []);
    TextOfNothing(rules, j + 1);
    Alone(body);
    Alone(Inside(rules, j));
  }

  lemma {:induction false} ValueFrom(rules: seq<Rule>, i: nat, j: nat)
    requires i <= j < |rules| && AllNonEmpty(rules) && LongestFirst(rules)
    ensures TextFrom(rules, i, rules[j].value) == TextFrom(rules, j + 1, Marker(rules[j].name))
    decreases j - i
  {
    hide Replace, Contains, Marker;
    var v, w := rules[j].value, rules[i].value;
    assert rules[i] in rules && rules[j] in rules;
    if i < j {
      ContainedIsShorter(v, w);
      ReplaceNothing(v, w, Marker(rules[i].name));
      ValueFrom(rules, i + 1, j);
    } else {
      ReplaceWhole(v, Marker(rules[j].name));
    }
  }

  // A registered value on its own is replaced whole, even when it contains others: longest first. What is left is its
  // marker as the later rules leave it.
  lemma ValueIsReplacedWhole(rules: seq<Rule>, j: nat)
    requires j < |rules| && AllNonEmpty(rules) && LongestFirst(rules)
    ensures Text(rules, rules[j].value) == TextFrom(rules, j + 1, Marker(rules[j].name))
    ensures (forall k :: j < k < |rules| ==> !Contains(Marker(rules[j].name), rules[k].value)) ==> Text(rules, rules[j].value) == Marker(rules[j].name)
    ensures Separate(rules) ==> Text(rules, rules[j].value) == Bracketed(Inside(rules, j))
    ensures Separate(rules) && Clean(rules, Body(rules[j].name)) ==> Text(rules, rules[j].value) == Marker(rules[j].name)
  {
    if Clean(rules, Body(rules[j].name)) { CleanIsKept(rules, j + 1, Body(rules[j].name)); }
    assert Marker(rules[j].name) == Bracketed(Body(rules[j].name));
    hide Separate, Contains, Marker, Clean, TextFrom;
    ValueFrom(rules, 0, j);
    if forall k :: j < k < |rules| ==> !Contains(Marker(rules[j].name), rules[k].value) {
      TextSkips(rules, j + 1, |rules|, Marker(rules[j].name));
    }
    if Separate(rules) { TextOfMarker(rules, j); }
  }

  lemma {:induction false} CleanIsKept(rules: seq<Rule>, i: nat, s: string)
    requires i <= |rules| && AllNonEmpty(rules) && Clean(rules, s)
    ensures TextFrom(rules, i, s) == s
    decreases |rules| - i
  {
    if i < |rules| {
      assert rules[i] in rules;
      ReplaceNothing(s, rules[i].value, Marker(rules[i].name));
      CleanIsKept(rules, i + 1, s);
    }
  }

  lemma CompleteMeansMarkersClean(rules: seq<Rule>, j: nat)
    requires AllNonEmpty(rules) && Separate(rules) && LongestFirst(rules) && j < |rules| && Complete(rules)
    ensures Clean(rules, Inside(rules, j))
  {
    hide Clean, Inside;
    ValueIsReplacedWhole(rules, j);
    assert Clean(rules, Text(rules, rules[j].value));
    assert forall r :: r in rules ==> Apart(r.value, Bracketed(Inside(rules, j)));
    hide Apart, StaysApart, Text, Separate, Bracketed;
    BracketedClean(rules, [], Inside(rules, j), []);
    Alone(Inside(rules, j));
  }

  // Exactly when nothing leaks: for values that touch no marker, values without brackets among them, on every
  // input and for any overlapping or nested values, no value is left exactly when none is left inside a marker.
  lemma CompleteIff(rules: seq<Rule>)
    requires AllNonEmpty(rules) && Separate(rules) && LongestFirst(rules)
    ensures Complete(rules) <==> MarkersClean(rules)
  {
    hide Clean, Inside, TextFrom;
    if MarkersClean(rules) {
      forall s ensures Clean(rules, Text(rules, s)) { TextIsClean(rules, 0, s); }
    }
    if Complete(rules) {
      forall j | 0 <= j < |rules| ensures Clean(rules, Inside(rules, j)) { CompleteMeansMarkersClean(rules, j); }
    }
  }

  // In particular when no value touches or occurs in a marker: what can be checked on the names and values alone.
  lemma CompleteWhenUntouched(rules: seq<Rule>)
    requires AllNonEmpty(rules) && Untouched(rules) && LongestFirst(rules)
    ensures Complete(rules)
    ensures forall j :: 0 <= j < |rules| ==> Text(rules, rules[j].value) == Marker(rules[j].name)
  {
    UntouchedIsSeparate(rules);
    CompleteIff(rules);
    hide Separate, Inside, Untouched;
    forall j | 0 <= j < |rules| ensures Text(rules, rules[j].value) == Marker(rules[j].name) {
      ValueIsReplacedWhole(rules, j);
    }
  }

  // Completeness gives idempotence.
  lemma CompleteIsIdempotent(rules: seq<Rule>, s: string)
    requires AllNonEmpty(rules) && Complete(rules)
    ensures Text(rules, Text(rules, s)) == Text(rules, s)
  {
    CleanIsKept(rules, 0, Text(rules, s));
  }

  // For values without brackets it is enough that none occurs in a "secret NAME".
  lemma CompleteWhenMarkersFree(rules: seq<Rule>, s: string)
    requires AllNonEmpty(rules) && NoBrackets(rules) && LongestFirst(rules)
    requires forall r :: r in rules ==> Clean(rules, Body(r.name))
    ensures Clean(rules, Text(rules, s))
    ensures Text(rules, Text(rules, s)) == Text(rules, s)
  {
    NoBracketsIsUntouched(rules);
    CompleteWhenUntouched(rules);
    CompleteIsIdempotent(rules, s);
  }

  // ---- only values are taken out, each for its own marker ----

  datatype Piece = Raw(text: string) | Hidden(rule: nat)

  predicate PiecesOf(rules: seq<Rule>, ps: seq<Piece>) { forall p :: p in ps && p.Hidden? ==> p.rule < |rules| }

  // The original text: every hidden piece is its value.
  function Original(rules: seq<Rule>, ps: seq<Piece>): string
    requires PiecesOf(rules, ps)
  {
    if ps == [] then [] else assert ps[0] in ps; Before(rules, ps[0]) + Original(rules, ps[1..])
  }

  function Before(rules: seq<Rule>, p: Piece): string
    requires p.Hidden? ==> p.rule < |rules|
  {
    if p.Raw? then p.text else rules[p.rule].value
  }

  // The stored text: every hidden piece is its marker.
  function Stored(rules: seq<Rule>, ps: seq<Piece>): string
    requires PiecesOf(rules, ps) && AllNonEmpty(rules)
  {
    if ps == [] then [] else assert ps[0] in ps; After(rules, ps[0]) + Stored(rules, ps[1..])
  }

  function After(rules: seq<Rule>, p: Piece): string
    requires AllNonEmpty(rules) && (p.Hidden? ==> p.rule < |rules|)
  {
    if p.Raw? then p.text else Bracketed(Inside(rules, p.rule))
  }

  predicate RawClean(rules: seq<Rule>, ps: seq<Piece>) { forall p :: p in ps && p.Raw? ==> Clean(rules, p.text) }

  lemma {:induction false} PiecesConcat(rules: seq<Rule>, a: seq<Piece>, b: seq<Piece>)
    requires PiecesOf(rules, a) && PiecesOf(rules, b) && AllNonEmpty(rules)
    ensures PiecesOf(rules, a + b)
    ensures Original(rules, a + b) == Original(rules, a) + Original(rules, b)
    ensures Stored(rules, a + b) == Stored(rules, a) + Stored(rules, b)
  {
    hide Before, After, Stored, Original;
    if a == [] {
      assert a + b == b;
      NoPieces(rules);
    } else {
      var p, rest := a[0], a[1..];
      assert p in a && a == [p] + rest && a + b == [p] + (rest + b);
      assert forall q :: q in rest ==> q in a;
      PiecesConcat(rules, rest, b);
      OnePiece(rules, p, rest);
      OnePiece(rules, p, rest + b);
      Associates(After(rules, p), Stored(rules, rest), Stored(rules, b));
      Associates(Before(rules, p), Original(rules, rest), Original(rules, b));
    }
  }

  lemma NoPieces(rules: seq<Rule>)
    requires AllNonEmpty(rules)
    ensures PiecesOf(rules, []) && Stored(rules, []) == [] && Original(rules, []) == []
  {
  }

  lemma OnePiece(rules: seq<Rule>, p: Piece, rest: seq<Piece>)
    requires AllNonEmpty(rules) && (p.Hidden? ==> p.rule < |rules|) && PiecesOf(rules, rest)
    ensures PiecesOf(rules, [p] + rest)
    ensures Stored(rules, [p] + rest) == After(rules, p) + Stored(rules, rest)
    ensures Original(rules, [p] + rest) == Before(rules, p) + Original(rules, rest)
  {
    assert ([p] + rest)[1..] == rest;
  }

  lemma RawCleanAround(rules: seq<Rule>, a: seq<Piece>, i: nat, b: seq<Piece>)
    requires RawClean(rules, a) && RawClean(rules, b)
    ensures RawClean(rules, a + ([Hidden(i)] + b))
  {
    hide Clean;
    forall p | p in a + ([Hidden(i)] + b) && p.Raw? ensures p in a || p in b {
      assert p in a || p in [Hidden(i)] + b;
    }
  }

  lemma {:induction false} Decompose(rules: seq<Rule>, i: nat, s: string) returns (ps: seq<Piece>)
    requires i <= |rules| && AllNonEmpty(rules) && Separate(rules)
    requires forall k :: 0 <= k < i ==> !Contains(s, rules[k].value)
    ensures PiecesOf(rules, ps) && RawClean(rules, ps)
    ensures Stored(rules, ps) == TextFrom(rules, i, s) && Original(rules, ps) == s
    decreases |rules| - i, 0
  {
    if i == |rules| {
      ps := [Raw(s)];
    } else {
      assert rules[i] in rules;
      var parts := Parts(s, rules[i].value);
      forall k, h | 0 <= k < |parts| && 0 <= h < i + 1 ensures !Contains(parts[k], rules[h].value) {
        PartsAreFree(s, rules[i].value, rules[h].value, k);
      }
      ps := DecomposeParts(rules, i, parts);
      TextStep(rules, i, s);
      PartsRebuild(s, rules[i].value);
    }
  }

  lemma {:induction false} DecomposeParts(rules: seq<Rule>, i: nat, parts: seq<string>) returns (ps: seq<Piece>)
    requires i < |rules| && AllNonEmpty(rules) && Separate(rules) && parts != []
    requires forall k, h :: 0 <= k < |parts| && 0 <= h < i + 1 ==> !Contains(parts[k], rules[h].value)
    ensures PiecesOf(rules, ps) && RawClean(rules, ps)
    ensures Stored(rules, ps) == Join(TextEach(rules, i + 1, parts), Bracketed(Inside(rules, i)))
    ensures Original(rules, ps) == Join(parts, rules[i].value)
    decreases |rules| - i - 1, |parts|
  {
    hide Separate, RawClean, Contains, TextFrom, Inside, Stored, Original, Join, TextEach;
    ps := Decompose(rules, i + 1, parts[0]);
    JoinUnfolds(parts, rules[i].value);
    JoinUnfolds(TextEach(rules, i + 1, parts), Bracketed(Inside(rules, i)));
    if |parts| > 1 {
      var rest := DecomposeParts(rules, i, parts[1..]);
      TextEachTail(rules, i + 1, parts);
      RawCleanAround(rules, ps, i, rest);
      HiddenBetween(rules, i, ps, rest);
      ps := ps + ([Hidden(i)] + rest);
    }
  }

  lemma JoinUnfolds(ps: seq<string>, m: string)
    requires ps != []
    ensures Join(ps, m) == if |ps| == 1 then ps[0] else ps[0] + m + Join(ps[1..], m)
  {
  }

  lemma TextEachTail(rules: seq<Rule>, i: nat, ps: seq<string>)
    requires i <= |rules| && AllNonEmpty(rules) && |ps| > 0
    ensures TextEach(rules, i, ps)[1..] == TextEach(rules, i, ps[1..])
  {
    hide TextFrom;
  }

  lemma HiddenBetween(rules: seq<Rule>, i: nat, ps: seq<Piece>, rest: seq<Piece>)
    requires i < |rules| && AllNonEmpty(rules) && PiecesOf(rules, ps) && PiecesOf(rules, rest)
    ensures PiecesOf(rules, ps + ([Hidden(i)] + rest))
    ensures Stored(rules, ps + ([Hidden(i)] + rest)) == Stored(rules, ps) + Bracketed(Inside(rules, i)) + Stored(rules, rest)
    ensures Original(rules, ps + ([Hidden(i)] + rest)) == Original(rules, ps) + rules[i].value + Original(rules, rest)
  {
    hide Stored, Original, Inside, PiecesOf, Bracketed;
    OnePiece(rules, Hidden(i), rest);
    PiecesConcat(rules, ps, [Hidden(i)] + rest);
    Associates(Stored(rules, ps), Bracketed(Inside(rules, i)), Stored(rules, rest));
    Associates(Original(rules, ps), rules[i].value, Original(rules, rest));
  }

  lemma Associates(a: string, b: string, c: string)
    ensures a + (b + c) == a + b + c
  {
  }

  // For values that touch no marker: the stored text is the original with some occurrences of values replaced by
  // their own markers and nothing else changed, and no value is left in what was not replaced.
  lemma TextTakesOutOnlyValues(rules: seq<Rule>, s: string) returns (ps: seq<Piece>)
    requires AllNonEmpty(rules) && Separate(rules)
    ensures PiecesOf(rules, ps) && Original(rules, ps) == s && Stored(rules, ps) == Text(rules, s) && RawClean(rules, ps)
  {
    ps := Decompose(rules, 0, s);
  }

  // ---- where the claim would be false ----

  // A value that occurs in its own marker stays readable.
  lemma ValueInItsMarkerLeaks()
    ensures var rules := [Rule("secret A", "A")]; !Complete(rules)
  {
    var rules, m := [Rule("secret A", "A")], Marker("A");
    assert OccursAt(m, "secret A", 1) && Contains(m, "secret A");
    TextEnds(rules, m);
    hide Contains, TextFrom, Marker, Complete;
    if Complete(rules) { CompleteOnlyIfMarkersClean(rules, 0); }
  }

  lemma ContainsItsCharacters(s: string, v: string, c: char)
    requires Contains(s, v) && c in v
    ensures c in s
  {
    var i :| 0 <= i <= |s| && OccursAt(s, v, i);
    var j :| 0 <= j < |v| && v[j] == c;
    assert s[i..i + |v|][j] == s[i + j];
  }

  lemma AbsentCharacter(s: string, v: string, c: char)
    requires c in v && c !in s
    ensures !Contains(s, v)
  {
    if Contains(s, v) { ContainsItsCharacters(s, v, c); }
  }

  lemma ReplaceAfterCut(a: string, c: char, v: string, m: string)
    requires v != [] && c !in v && !Contains(a, v)
    ensures Replace(a + [c] + v, v, m) == a + [c] + m
  {
    ReplaceCut(a, c, v, v, m);
    ReplaceNothing(a, v, m);
    assert Replace(v, v, m) == m + Replace(v[|v|..], v, m) == m;
  }

  lemma {:induction false} TextSkips(rules: seq<Rule>, i: nat, n: nat, s: string)
    requires i <= n <= |rules| && AllNonEmpty(rules) && forall k :: i <= k < n ==> !Contains(s, rules[k].value)
    ensures TextFrom(rules, i, s) == TextFrom(rules, n, s)
    decreases n - i
  {
    hide Contains, Replace, Marker;
    if i < n {
      assert rules[i] in rules;
      ReplaceNothing(s, rules[i].value, Marker(rules[i].name));
      TextSkips(rules, i + 1, n, s);
    }
  }

  // In a + (value j) + b that value is replaced and nothing else happens.
  predicate Undisturbed(rules: seq<Rule>, j: nat, a: string, b: string)
    requires j < |rules| && AllNonEmpty(rules)
  {
    var (v, m) := (rules[j].value, Marker(rules[j].name));
    assert rules[j] in rules;
    && (forall k :: 0 <= k < j ==> !Contains(a + v + b, rules[k].value))
    && Replace(a + v + b, v, m) == a + m + b
    && (forall k :: j < k < |rules| ==> !Contains(a + m + b, rules[k].value))
  }

  // A necessary condition for any values, whether or not they touch markers: wherever nothing else happens, a marker
  // must not put a value together whose turn has passed.
  lemma CompleteOnlyIf(rules: seq<Rule>, i: nat, j: nat, a: string, b: string)
    requires i < j < |rules| && AllNonEmpty(rules) && Complete(rules) && Undisturbed(rules, j, a, b)
    ensures !Contains(a + Marker(rules[j].name) + b, rules[i].value)
  {
    var s, out := a + rules[j].value + b, a + Marker(rules[j].name) + b;
    TextSkips(rules, 0, j, s);
    assert TextFrom(rules, j, s) == TextFrom(rules, j + 1, out);
    TextSkips(rules, j + 1, |rules|, out);
    assert Clean(rules, Text(rules, s)) && rules[i] in rules;
    hide Contains, Replace;
  }

  // And every marker, as the later rules leave it, must be clean.
  lemma CompleteOnlyIfMarkersClean(rules: seq<Rule>, j: nat)
    requires j < |rules| && AllNonEmpty(rules) && LongestFirst(rules) && Complete(rules)
    ensures Clean(rules, TextFrom(rules, j + 1, Marker(rules[j].name)))
  {
    ValueIsReplacedWhole(rules, j);
    hide Clean, TextFrom, Marker;
    assert Clean(rules, Text(rules, rules[j].value));
  }

  // So a value that ends in a prefix of a later rule's marker, or starts with the end of one, leaks wherever the rest
  // of it stands next to that rule's value undisturbed.
  lemma TouchingValueLeaks(rules: seq<Rule>, i: nat, j: nat, rest: string, touch: string)
    requires i < j < |rules| && AllNonEmpty(rules)
    requires || (rules[i].value == rest + touch && touch <= Marker(rules[j].name) && Undisturbed(rules, j, rest, []))
             || (rules[i].value == touch + rest && EndsWith(Marker(rules[j].name), touch) && Undisturbed(rules, j, [], rest))
    ensures !Complete(rules)
  {
    var p, m := rules[i].value, Marker(rules[j].name);
    hide Undisturbed, Complete, Marker;
    if p == rest + touch && touch <= m && Undisturbed(rules, j, rest, []) {
      PutTogetherBefore(rest, touch, m);
      if Complete(rules) { CompleteOnlyIf(rules, i, j, rest, []); }
    } else {
      PutTogetherAfter(rest, touch, m);
      if Complete(rules) { CompleteOnlyIf(rules, i, j, [], rest); }
    }
  }

  lemma PutTogetherBefore(rest: string, touch: string, m: string)
    requires touch <= m
    ensures Contains(rest + m + [], rest + touch)
  {
    assert OccursAt(rest + m + [], rest + touch, 0);
  }

  lemma PutTogetherAfter(rest: string, touch: string, m: string)
    requires EndsWith(m, touch)
    ensures Contains([] + m + rest, touch + rest)
  {
    assert OccursAt([] + m + rest, touch + rest, |m| - |touch|);
  }

  const CUTS_MARKERS := [Rule("abababab", "N"), Rule("]xxxxxxx", "M")]

  // An M comes from the text itself or from the marker of the value with the bracket.
  lemma {:induction false} WhereItCameFrom(ps: seq<Piece>)
    requires PiecesOf(CUTS_MARKERS, ps) && AllNonEmpty(CUTS_MARKERS)
    ensures 'M' in Stored(CUTS_MARKERS, ps) ==> ']' in Original(CUTS_MARKERS, ps) || 'M' in Original(CUTS_MARKERS, ps)
  {
    var rules := CUTS_MARKERS;
    if ps != [] {
      var p, rest := ps[0], ps[1..];
      assert p in ps && [p] + rest == ps;
      OnePiece(rules, p, rest);
      WhereItCameFrom(rest);
      OnePieceFrom(p);
      hide Stored, Original, After, Before, CUTS_MARKERS;
    }
  }

  lemma OnePieceFrom(p: Piece)
    requires AllNonEmpty(CUTS_MARKERS) && (p.Hidden? ==> p.rule < |CUTS_MARKERS|)
    ensures 'M' in After(CUTS_MARKERS, p) ==> ']' in Before(CUTS_MARKERS, p) || 'M' in Before(CUTS_MARKERS, p)
  {
    FirstMarkerStays();
    assert "]xxxxxxx"[0] == ']';
  }

  lemma TextEnds(rules: seq<Rule>, s: string)
    requires AllNonEmpty(rules)
    ensures TextFrom(rules, |rules|, s) == s
  {
  }

  lemma FirstMarkerStays()
    ensures AllNonEmpty(CUTS_MARKERS) && 'M' !in Bracketed(Inside(CUTS_MARKERS, 0))
  {
    var body, w := "secret N", "]xxxxxxx";
    assert w[0] == ']' && ']' !in body && Body("N") == body && 'M' !in Bracketed(body);
    hide Contains, TextFrom;
    AbsentCharacter(body, w, ']');
    TextSkips(CUTS_MARKERS, 1, 2, body);
    TextEnds(CUTS_MARKERS, body);
    hide Bracketed;
  }

  // A value that touches a marker can be taken out of text it was never in: the end of the marker that replaced
  // "abababab" goes with the x's after it, and the output is no longer the text with values replaced by markers.
  lemma MarkerIsCutUp(ps: seq<Piece>)
    ensures AllNonEmpty(CUTS_MARKERS) && LongestFirst(CUTS_MARKERS) && Text(CUTS_MARKERS, "ababababxxxxxxx") == "[secret N[secret M]"
    ensures !(PiecesOf(CUTS_MARKERS, ps) && Original(CUTS_MARKERS, ps) == "ababababxxxxxxx" &&
              Stored(CUTS_MARKERS, ps) == Text(CUTS_MARKERS, "ababababxxxxxxx"))
  {
    var s, out := "ababababxxxxxxx", "[secret N[secret M]";
    CutsUp();
    CutsInOrder();
    NoBracketNorM();
    MInOutput();
    hide *;
    NotFromPieces(ps, s, out);
  }

  lemma NoBracketNorM()
    ensures ']' !in "ababababxxxxxxx" && 'M' !in "ababababxxxxxxx"
  {
  }

  lemma MInOutput()
    ensures 'M' in "[secret N[secret M]"
  {
    assert "[secret N[secret M]"[17] == 'M';
  }

  lemma NotFromPieces(ps: seq<Piece>, s: string, out: string)
    requires ']' !in s && 'M' !in s && 'M' in out && AllNonEmpty(CUTS_MARKERS)
    ensures !(PiecesOf(CUTS_MARKERS, ps) && Original(CUTS_MARKERS, ps) == s && Stored(CUTS_MARKERS, ps) == out)
  {
    hide Stored, Original, CUTS_MARKERS;
    if PiecesOf(CUTS_MARKERS, ps) && Original(CUTS_MARKERS, ps) == s { WhereItCameFrom(ps); }
  }

  lemma CutsInOrder()
    ensures LongestFirst(CUTS_MARKERS)
  {
    assert "abababab"[0] != "]xxxxxxx"[0];
  }

  lemma CutsUp()
    ensures AllNonEmpty(CUTS_MARKERS) && Text(CUTS_MARKERS, "ababababxxxxxxx") == "[secret N[secret M]"
  {
    var v, w, rest, mid := "abababab", "]xxxxxxx", "xxxxxxx", "[secret N";
    CutStrings();
    assert 'a' in v && 'a' !in rest && ']' !in mid;
    hide Replace, Contains, Marker;
    AbsentCharacter(rest, v, 'a');
    ReplaceAtFront(rest, v, Marker("N"));
    ReplaceNothing(rest, v, Marker("N"));
    ReplaceFrom(mid, w, Marker("M"));
    BothApply(Rule(v, "N"), Rule(w, "M"), v + rest, mid + w);
  }

  lemma CutStrings()
    ensures "ababababxxxxxxx" == "abababab" + "xxxxxxx" && Marker("N") + "xxxxxxx" == "[secret N" + "]xxxxxxx"
    ensures "[secret N" + Marker("M") == "[secret N[secret M]"
  {
  }

  lemma BothApply(r: Rule, q: Rule, s: string, mid: string)
    requires r.value != [] && q.value != [] && Replace(s, r.value, Marker(r.name)) == mid
    ensures AllNonEmpty([r, q]) && Text([r, q], s) == Replace(mid, q.value, Marker(q.name))
  {
    hide Replace, Marker;
    var rules, last := [r, q], Replace(mid, q.value, Marker(q.name));
    assert TextFrom(rules, 2, last) == last;
    assert TextFrom(rules, 1, mid) == last;
  }

  lemma {:induction false} ReplaceFrom(mid: string, w: string, m: string)
    requires w == "]xxxxxxx" && ']' !in mid
    ensures Replace(mid + w, w, m) == mid + m
  {
    if mid == [] {
      assert mid + w == w;
      ReplaceWhole(w, m);
    } else {
      assert mid[0] in mid && mid + w == [mid[0]] + (mid[1..] + w);
      assert ([mid[0]] + (mid[1..] + w))[0] != w[0];
      ReplacePastFront(mid[0], mid[1..] + w, w, m);
      ReplaceFrom(mid[1..], w, m);
    }
  }

  lemma MarkersAreFree(p: string, v: string)
    requires '[' in p && 'a' in v && |p| >= |v| && p != v
    ensures var rules := [Rule(p, "M"), Rule(v, "N")];
            AllNonEmpty(rules) && LongestFirst(rules) && forall r :: r in rules ==> Clean(rules, Body(r.name))
  {
    AbsentCharacter(Body("M"), p, '[');
    AbsentCharacter(Body("M"), v, 'a');
    AbsentCharacter(Body("N"), p, '[');
    AbsentCharacter(Body("N"), v, 'a');
    hide Contains, Body;
  }

  // So without the bracket condition the claim is false, though no value occurs in any marker: the marker in
  // "xx[secret N]", put for "abababab", puts the value "xx[secret" together.
  lemma ValueWithBracketLeaks()
    ensures var rules := [Rule("xx[secret", "M"), Rule("abababab", "N")];
            && AllNonEmpty(rules) && LongestFirst(rules) && (forall r :: r in rules ==> Clean(rules, Body(r.name)))
            && !Complete(rules)
  {
    var p, v := "xx[secret", "abababab";
    assert '[' in p && 'a' in v && p == "xx" + "[secret";
    hide *;
    MarkersAreFree(p, v);
    BracketStandsAlone(p, v);
    BracketTouches(p, v);
  }

  lemma BracketStandsAlone(p: string, v: string)
    requires '[' in p && v == "abababab"
    ensures !Contains("xx" + v, p) && Replace("xx" + v, v, Marker("N")) == "xx" + Marker("N")
  {
    assert 'a' in v && 'x' !in v && '[' !in "xx" + v && 'a' !in "x";
    hide Contains, Replace, Marker;
    AbsentCharacter("x", v, 'a');
    AbsentCharacter("xx" + v, p, '[');
    ReplaceAfterCut("x", 'x', v, Marker("N"));
    assert "x" + ['x'] == "xx";
  }

  lemma BracketTouches(p: string, v: string)
    requires p == "xx" + "[secret" && v != [] && !Contains("xx" + v, p) && Replace("xx" + v, v, Marker("N")) == "xx" + Marker("N")
    ensures AllNonEmpty([Rule(p, "M"), Rule(v, "N")]) && !Complete([Rule(p, "M"), Rule(v, "N")])
  {
    var rules := [Rule(p, "M"), Rule(v, "N")];
    assert "xx" + v + [] == "xx" + v && "xx" + Marker("N") + [] == "xx" + Marker("N");
    assert "[secret" <= Marker("N");
    hide Contains, Replace, Marker, Complete;
    TouchingValueLeaks(rules, 0, 1, "xx", "[secret");
  }

  // ---- the registered values of one run ----

  function LongerFirst(): (string, string) -> bool { (a: string, b: string) => |a| >= |b| }

  // sorted(keys, key=len, reverse=True): longest first, equally long ones in their order.
  function ByLength(keys: seq<string>): seq<string> { Sort(LongerFirst(), keys) }

  predicate Descending(s: seq<string>) { forall i, j :: 0 <= i < j < |s| ==> |s[i]| >= |s[j]| }

  lemma ByLengthIsSorted(keys: seq<string>)
    requires NoDup(keys)
    ensures Descending(ByLength(keys)) && NoDup(ByLength(keys))
    ensures forall y :: y in ByLength(keys) <==> y in keys
  {
    assert IsOrder(LongerFirst());
    SortSorted(LongerFirst(), keys);
    SortNoDup(LongerFirst(), keys);
    SortMembers(LongerFirst(), keys);
    forall i, j | 0 <= i < j < |ByLength(keys)| ensures |ByLength(keys)[i]| >= |ByLength(keys)[j]| {
      assert LongerFirst()(ByLength(keys)[i], ByLength(keys)[j]);
    }
  }

  function RulesOf(order: seq<string>, byValue: map<string, string>): (rules: seq<Rule>)
    requires forall v :: v in order ==> v in byValue
    ensures |rules| == |order| && forall i :: 0 <= i < |rules| ==> order[i] in byValue && rules[i] == Rule(order[i], byValue[order[i]])
  {
    assert forall i :: 0 <= i < |order| ==> order[i] in order;
    seq(|order|, i requires 0 <= i < |order| => Rule(order[i], byValue[order[i]]))
  }

  lemma RulesInOrder(order: seq<string>, byValue: map<string, string>)
    requires NoDup(order) && Descending(order) && (forall v :: v in order <==> v in byValue)
    requires forall v :: v in byValue ==> v != []
    ensures var rules := RulesOf(order, byValue);
            && AllNonEmpty(rules) && LongestFirst(rules)
            && forall v, n :: Rule(v, n) in rules <==> v in byValue && byValue[v] == n
  {
    var rules := RulesOf(order, byValue);
    forall v, n | v in byValue && byValue[v] == n ensures Rule(v, n) in rules {
      var i :| 0 <= i < |order| && order[i] == v;
      assert rules[i] == Rule(v, n);
    }
  }

  // The first name given to a value keeps it; empty values are not registered.
  function Registered(byValue: map<string, string>, values: seq<(string, string)>): map<string, string> {
    if values == [] then byValue
    else
      var before, (name, value) := Registered(byValue, values[..|values| - 1]), values[|values| - 1];
      if value != [] && value !in before then before[value := name] else before
  }

  // Every registered value is there under the first name it was given, what was there before keeps its name, and
  // nothing else is there.
  lemma {:induction false} FirstNameStays(byValue: map<string, string>, values: seq<(string, string)>, v: string)
    ensures var after := Registered(byValue, values);
            && (v in byValue ==> v in after && after[v] == byValue[v])
            && (v !in byValue ==> (v in after <==> v != [] && exists i :: 0 <= i < |values| && values[i].1 == v))
            && (v !in byValue && v in after ==> exists i :: 0 <= i < |values| && values[i] == (after[v], v) && forall j :: 0 <= j < i ==> values[j].1 != v)
  {
    if values != [] {
      var n := |values| - 1;
      FirstNameStays(byValue, values[..n], v);
      var before, after := Registered(byValue, values[..n]), Registered(byValue, values);
      if v !in byValue && v in before {
        var i :| 0 <= i < n && values[..n][i] == (before[v], v) && forall j :: 0 <= j < i ==> values[..n][j].1 != v;
        assert values[i] == (after[v], v) && forall j :: 0 <= j < i ==> values[j].1 != v;
      } else if v !in byValue && v in after {
        assert values[n] == (after[v], v);
        assert forall j :: 0 <= j < n ==> values[j].1 != v by { assert forall j :: 0 <= j < n ==> values[..n][j] == values[j]; }
      } else if v !in byValue && v != [] {
        assert forall i :: 0 <= i < n ==> values[..n][i] == values[i];
      }
    }
  }

  class Redactor {
    var byValue: map<string, string>
    var keys: seq<string>     // the order in which byValue got its keys
    var order: seq<string>

    ghost predicate Valid()
      reads this
    {
      && NoDup(keys) && (forall v :: v in keys <==> v in byValue)
      && order == ByLength(keys) && (forall v :: v in byValue ==> v != [])
    }

    // The values in the order they are replaced in, each with its name.
    ghost function Rules(): (rules: seq<Rule>)
      requires Valid()
      reads this
      ensures (forall v :: v in order ==> v in byValue) && rules == RulesOf(order, byValue)
      ensures AllNonEmpty(rules) && LongestFirst(rules)
      ensures forall v, n :: Rule(v, n) in rules <==> v in byValue && byValue[v] == n
    {
      ByLengthIsSorted(keys);
      RulesInOrder(order, byValue);
      RulesOf(order, byValue)
    }

    constructor ()
      ensures Valid() && byValue == map[]
    {
      byValue, keys, order := map[], [], [];
    }

    method Add(values: seq<(string, string)>)
      requires Valid()
      modifies this
      ensures Valid() && byValue == Registered(old(byValue), values) && old(keys) <= keys
    {
      for i := 0 to |values|
        invariant NoDup(keys) && (forall v :: v in keys <==> v in byValue) && (forall v :: v in byValue ==> v != [])
        invariant byValue == Registered(old(byValue), values[..i]) && old(keys) <= keys
      {
        assert values[..i + 1][..i] == values[..i];
        var (name, value) := values[i];
        if value != [] && value !in byValue {
          NoDupConcat(keys, [value]);
          byValue, keys := byValue[value := name], keys + [value];
        }
      }
      assert values[..|values|] == values;
      order := ByLength(keys);
    }

    method RedactText(s: string) returns (r: string)
      requires Valid()
      ensures r == Text(Rules(), s)
    {
      r := s;
      ghost var rules := Rules();
      for i := 0 to |order|
        invariant TextFrom(rules, i, r) == Text(rules, s)
      {
        assert rules[i] in rules;
        var value := order[i];
        if Contains(r, value) {
          r := Replace(r, value, Marker(byValue[value]));
        } else {
          ReplaceNothing(r, value, Marker(byValue[value]));
        }
      }
    }
  }

  // ---- JSON ----

  datatype Json = Null | Bool(b: bool) | Number(n: real) | Str(s: string) | Arr(items: seq<Json>) | Obj(entries: seq<(string, Json)>)

  function Put(entries: seq<(string, Json)>, k: string, v: Json): seq<(string, Json)> {
    if entries == [] then [(k, v)]
    else if entries[0].0 == k then [(k, v)] + entries[1..]
    else [entries[0]] + Put(entries[1..], k, v)
  }

  // A dict comprehension: of equal keys the last value stays, at the first one's place.
  function FromPairs(pairs: seq<(string, Json)>): seq<(string, Json)> {
    if pairs == [] then [] else Put(FromPairs(pairs[..|pairs| - 1]), pairs[|pairs| - 1].0, pairs[|pairs| - 1].1)
  }

  function Value(rules: seq<Rule>, v: Json): Json
    requires AllNonEmpty(rules)
    decreases v
  {
    if rules == [] then v
    else match v
      case Str(s) => Str(Text(rules, s))
      case Arr(items) => Arr(seq(|items|, i requires 0 <= i < |items| => Value(rules, items[i])))
      case Obj(entries) => Obj(FromPairs(Pairs(rules, v, entries)))
      case _ => v
  }

  function Pairs(rules: seq<Rule>, v: Json, entries: seq<(string, Json)>): (ps: seq<(string, Json)>)
    requires AllNonEmpty(rules) && v.Obj? && entries == v.entries
    ensures |ps| == |entries|
    decreases v, 0
  {
    seq(|entries|, i requires 0 <= i < |entries| => (Text(rules, entries[i].0), Value(rules, entries[i].1)))
  }

  // The strings of a JSON value, object keys included.
  ghost predicate Holds(v: Json, t: string)
    decreases v
  {
    match v
    case Str(s) => s == t
    case Arr(items) => exists i :: 0 <= i < |items| && Holds(items[i], t)
    case Obj(entries) => exists i :: 0 <= i < |entries| && (entries[i].0 == t || Holds(entries[i].1, t))
    case _ => false
  }

  lemma {:induction false} PutMembers(entries: seq<(string, Json)>, k: string, v: Json, e: (string, Json))
    ensures e in Put(entries, k, v) ==> e in entries || e == (k, v)
  {
    if entries != [] { PutMembers(entries[1..], k, v, e); }
  }

  lemma {:induction false} FromPairsMembers(pairs: seq<(string, Json)>, e: (string, Json))
    ensures e in FromPairs(pairs) ==> e in pairs
  {
    if pairs != [] {
      FromPairsMembers(pairs[..|pairs| - 1], e);
      PutMembers(FromPairs(pairs[..|pairs| - 1]), pairs[|pairs| - 1].0, pairs[|pairs| - 1].1, e);
    }
  }

  lemma {:induction false} PutHas(entries: seq<(string, Json)>, k: string, v: Json)
    ensures (k, v) in Put(entries, k, v)
    ensures forall e :: e in entries && e.0 != k ==> e in Put(entries, k, v)
  {
    if entries != [] {
      PutHas(entries[1..], k, v);
      assert entries == [entries[0]] + entries[1..];
    }
  }

  // Pair i is the last one with its key.
  predicate IsLast(pairs: seq<(string, Json)>, i: nat) { i < |pairs| && forall j :: i < j < |pairs| ==> pairs[j].0 != pairs[i].0 }

  lemma {:induction false} FromPairsHas(pairs: seq<(string, Json)>, i: nat)
    requires IsLast(pairs, i)
    ensures pairs[i] in FromPairs(pairs)
  {
    var n := |pairs| - 1;
    PutHas(FromPairs(pairs[..n]), pairs[n].0, pairs[n].1);
    if i < n {
      assert IsLast(pairs[..n], i) && pairs[..n][i] == pairs[i];
      FromPairsHas(pairs[..n], i);
    }
  }

  // Nothing is dropped: an array keeps its length, its items redacted in place; of an object every entry stays, its key
  // and value redacted, unless a later entry comes to have the same key; everything that is no string stays as it is.
  lemma RedactionKeepsShape(rules: seq<Rule>, v: Json, i: nat)
    requires AllNonEmpty(rules)
    ensures var q := Value(rules, v);
            && (v.Str? ==> q == Str(if rules == [] then v.s else Text(rules, v.s)))
            && (v.Arr? ==> q.Arr? && |q.items| == |v.items| && (i < |v.items| ==> q.items[i] == Value(rules, v.items[i])))
            && (v.Obj? ==> q.Obj? && (rules != [] && IsLast(Pairs(rules, v, v.entries), i) ==>
                             (Text(rules, v.entries[i].0), Value(rules, v.entries[i].1)) in q.entries))
            && (v.Null? || v.Bool? || v.Number? ==> q == v)
    ensures rules == [] ==> Value(rules, v) == v
  {
    if v.Obj? && rules != [] && IsLast(Pairs(rules, v, v.entries), i) { FromPairsHas(Pairs(rules, v, v.entries), i); }
  }

  // Every string and object key of a redacted JSON value is one of the original's, redacted.
  lemma {:induction false} StringsAreRedacted(rules: seq<Rule>, v: Json, t: string) returns (u: string)
    requires AllNonEmpty(rules) && Holds(Value(rules, v), t)
    ensures Holds(v, u) && t == Text(rules, u)
    decreases v
  {
    if rules == [] {
      u := t;
    } else {
      match v
      case Str(s) => u := s;
      case Arr(items) =>
        var q := Value(rules, v);
        var i :| 0 <= i < |q.items| && Holds(q.items[i], t);
        u := StringsAreRedacted(rules, items[i], t);
      case Obj(entries) =>
        var pairs := Pairs(rules, v, entries);
        var q := Value(rules, v);
        var i :| 0 <= i < |q.entries| && (q.entries[i].0 == t || Holds(q.entries[i].1, t));
        FromPairsMembers(pairs, q.entries[i]);
        var j :| 0 <= j < |pairs| && pairs[j] == q.entries[i];
        if q.entries[i].0 == t {
          u := entries[j].0;
        } else {
          u := StringsAreRedacted(rules, entries[j].1, t);
        }
    }
  }

  // So where text is complete, no string or key anywhere in a stored JSON value contains a registered value.
  lemma ValueIsClean(rules: seq<Rule>, v: Json, t: string)
    requires AllNonEmpty(rules) && Complete(rules) && Holds(Value(rules, v), t)
    ensures Clean(rules, t)
  {
    var u := StringsAreRedacted(rules, v, t);
    assert Clean(rules, Text(rules, u));
  }
}
