// A run's log (src/booth_pipeline/runs.py, src/booth_pipeline/store/memory.py): lines are numbered and buffered under
// a lock, taken in batches, and stored outside the lock, so batches may be stored in any order or lost.
module Recorder {
  import opened Basics
  import opened Sorting

  const FLUSH_BATCH: nat := 200
  const PAGE: nat := 1000
  const SYSTEM := "system"

  datatype Line = Line(number: nat, taskKey: Option<string>, attempt: nat, stream: string, message: string)

  predicate IsTask(l: Line) { l.stream != SYSTEM }

  function Note(number: nat, text: string): Line { Line(number, None, 0, SYSTEM, text) }

  // What the lock guards: the last number given, the buffer, and what was dropped at the cap.
  datatype Buffer = Buffer(last: nat, lines: seq<Line>, dropped: nat, noted: bool)

  predicate AtCap(b: Buffer, max: nat, stream: string) { stream != SYSTEM && b.last >= max }

  // `note` is the text of the truncation note.
  function Emitted(b: Buffer, max: nat, note: string, taskKey: Option<string>, attempt: nat, stream: string, message: string): Buffer {
    if AtCap(b, max, stream) then
      if b.noted then b.(dropped := b.dropped + 1)
      else Buffer(b.last + 1, b.lines + [Note(b.last + 1, note)], b.dropped + 1, true)
    else b.(last := b.last + 1, lines := b.lines + [Line(b.last + 1, taskKey, attempt, stream, message)])
  }

  class StoreRecorder {
    const max: nat
    const note: string
    var last: nat
    var buf: seq<Line>
    var dropped: nat
    var noted: bool

    function State(): Buffer
      reads this
    {
      Buffer(last, buf, dropped, noted)
    }

    constructor (max: nat, note: string)
      ensures State() == Buffer(0, [], 0, false) && this.max == max && this.note == note
    {
      this.max, this.note, last, buf, dropped, noted := max, note, 0, [], 0, false;
    }

    // Returns whether the buffer should be flushed.
    method Emit(taskKey: Option<string>, attempt: nat, stream: string, message: string) returns (full: bool)
      modifies this
      ensures State() == Emitted(old(State()), max, note, taskKey, attempt, stream, message)
      ensures full <==> !AtCap(old(State()), max, stream) && |buf| >= FLUSH_BATCH
    {
      if stream != SYSTEM && last >= max {
        dropped := dropped + 1;
        if !noted {
          noted := true;
          last := last + 1;
          buf := buf + [Note(last, note)];
        }
        return false;
      }
      last := last + 1;
      buf := buf + [Line(last, taskKey, attempt, stream, message)];
      full := |buf| >= FLUSH_BATCH;
    }

    // The locked part of a flush; storing the batch comes after.
    method TakeBatch() returns (batch: seq<Line>)
      modifies this`buf
      ensures batch == old(buf) && State() == old(State()).(lines := [])
    {
      batch, buf := buf, [];
    }
  }

  // ---- the store's side ----

  predicate HasNumber(stored: seq<Line>, n: nat) { exists i :: 0 <= i < |stored| && stored[i].number == n }

  // A number that is already there is a retried flush, not a new line.
  function Appended(stored: seq<Line>, batch: seq<Line>): seq<Line> {
    if batch == [] then stored
    else
      var before, l := Appended(stored, batch[..|batch| - 1]), batch[|batch| - 1];
      if HasNumber(before, l.number) then before else before + [l]
  }

  function NumberOrder(): (Line, Line) -> bool { (a: Line, b: Line) => a.number <= b.number }

  // sort(key=lambda ln: ln.seq).
  function ByNumber(s: seq<Line>): seq<Line> { Sort(NumberOrder(), s) }

  predicate Increasing(s: seq<Line>) { forall i, j :: 0 <= i < j < |s| ==> s[i].number < s[j].number }

  predicate Distinct(s: seq<Line>) { forall i, j :: 0 <= i < j < |s| ==> s[i].number != s[j].number }

  function Beyond(s: seq<Line>, after: nat): seq<Line> {
    if s == [] then [] else Beyond(s[..|s| - 1], after) + if s[|s| - 1].number > after then [s[|s| - 1]] else []
  }

  class RunLog {
    var lines: seq<Line>

    constructor ()
      ensures lines == []
    {
      lines := [];
    }

    method AppendLogs(batch: seq<Line>)
      modifies this
      ensures lines == Appended(old(lines), batch)
    {
      for i := 0 to |batch|
        invariant lines == Appended(old(lines), batch[..i])
      {
        assert batch[..i + 1][..i] == batch[..i];
        if !HasNumber(lines, batch[i].number) {
          lines := lines + [batch[i]];
        }
      }
      assert batch[..|batch|] == batch;
    }

    method ListLogs(after: nat, limit: nat) returns (page: seq<Line>)
      ensures page == Take(ByNumber(Beyond(lines, after)), limit)
    {
      page := Take(ByNumber(Beyond(lines, after)), limit);
    }

    // Reading by pages, each after the last one's last line, terminates and rebuilds the whole log in order.
    method ReadAll(limit: nat) returns (all: seq<Line>)
      requires limit > 0 && Distinct(lines) && forall l :: l in lines ==> l.number >= 1
      ensures all == ByNumber(lines)
    {
      all := [];
      BeyondNothing(lines);
      var page := ListLogs(0, limit);
      var cursor := 0;
      ghost var rest := ByNumber(Beyond(lines, 0));
      while page != []
        invariant rest == ByNumber(Beyond(lines, cursor)) && ByNumber(lines) == all + rest
        invariant page == Take(rest, limit)
        decreases |rest|
      {
        hide ByNumber, Beyond, Distinct, Take;
        PageStep(lines, cursor, all, rest, limit);
        rest, all, cursor := rest[|page|..], all + page, page[|page| - 1].number;
        page := ListLogs(cursor, limit);
      }
      PageStep(lines, cursor, all, rest, limit);
    }
  }

  lemma PageStep(lines: seq<Line>, cursor: nat, all: seq<Line>, rest: seq<Line>, limit: nat)
    requires limit > 0 && Distinct(lines) && rest == ByNumber(Beyond(lines, cursor)) && ByNumber(lines) == all + rest
    ensures var page := Take(rest, limit);
            && (page == [] ==> ByNumber(lines) == all)
            && (page != [] ==> |page| <= |rest| && |rest[|page|..]| < |rest| && ByNumber(lines) == (all + page) + rest[|page|..])
            && (page != [] ==> rest[|page|..] == ByNumber(Beyond(lines, page[|page| - 1].number)))
  {
    hide ByNumber, Beyond, Distinct;
    TakeSplits(all, rest, limit);
    var page := Take(rest, limit);
    if page != [] {
      PageSplits(lines, cursor, |page|);
    } else {
      assert all + [] == all;
    }
  }

  // The number of the last line, 0 when there is none.
  function LastNumber(lines: seq<Line>): nat { if lines == [] then 0 else lines[|lines| - 1].number }

  // _next_seq: the number after the last line stored, found by paging to the end.
  method NextNumber(log: RunLog) returns (n: nat)
    requires Distinct(log.lines) && forall l :: l in log.lines ==> l.number >= 1
    ensures n == LastNumber(ByNumber(log.lines)) + 1
  {
    var tail := 0;
    BeyondNothing(log.lines);
    ghost var rest := ByNumber(log.lines);
    ghost var all: seq<Line> := [];
    var page := log.ListLogs(tail, PAGE);
    hide *;
    while page != []
      invariant rest == ByNumber(Beyond(log.lines, tail)) && ByNumber(log.lines) == all + rest
      invariant page == Take(rest, PAGE) && tail == LastNumber(all)
      decreases |rest|
    {
      PageStep(log.lines, tail, all, rest, PAGE);
      LastOfConcat(all, page);
      rest, all, tail := rest[|page|..], all + page, page[|page| - 1].number;
      page := log.ListLogs(tail, PAGE);
    }
    PageStep(log.lines, tail, all, rest, PAGE);
    n := tail + 1;
  }

  lemma LastOfConcat(a: seq<Line>, b: seq<Line>)
    requires b != []
    ensures LastNumber(a + b) == b[|b| - 1].number
  {
  }

  lemma TakeSplits(all: seq<Line>, rest: seq<Line>, limit: nat)
    requires limit > 0
    ensures var page := Take(rest, limit);
            && |page| <= |rest| && page == rest[..|page|] && (rest != [] <==> page != [])
            && all + rest == (all + page) + rest[|page|..]
  {
  }

  lemma {:induction false} BeyondMembers(s: seq<Line>, after: nat)
    ensures forall l :: l in Beyond(s, after) <==> l in s && l.number > after
  {
    if s != [] {
      BeyondMembers(s[..|s| - 1], after);
      assert s == s[..|s| - 1] + [s[|s| - 1]];
    }
  }

  lemma {:induction false} BeyondDistinct(s: seq<Line>, after: nat)
    requires Distinct(s)
    ensures Distinct(Beyond(s, after)) && |Beyond(s, after)| <= |s|
  {
    if s != [] {
      var n := |s| - 1;
      BeyondDistinct(s[..n], after);
      BeyondMembers(s[..n], after);
      DistinctSnoc(Beyond(s[..n], after), s[n]) by {
        forall l | l in Beyond(s[..n], after) ensures l.number != s[n].number {
          var i :| 0 <= i < n && s[..n][i] == l;
        }
      }
    }
  }

  lemma DistinctSnoc(s: seq<Line>, l: Line)
    requires Distinct(s) && forall x :: x in s ==> x.number != l.number
    ensures Distinct(s + [l])
  {
  }

  lemma {:induction false} BeyondNothing(s: seq<Line>)
    requires forall l :: l in s ==> l.number >= 1
    ensures Beyond(s, 0) == s
  {
    if s != [] {
      assert s == s[..|s| - 1] + [s[|s| - 1]];
      BeyondNothing(s[..|s| - 1]);
    }
  }

  lemma NumbersAreOrdered()
    ensures IsOrder(NumberOrder())
  {
  }

  lemma ByNumberMembers(s: seq<Line>)
    ensures forall x :: x in ByNumber(s) <==> x in s
  {
    SortMembers(NumberOrder(), s);
  }

  lemma DistinctIsNoDup(s: seq<Line>)
    requires Distinct(s)
    ensures NoDup(s) && forall x, y :: x in s && y in s && x.number == y.number ==> x == y
  {
    forall x, y | x in s && y in s && x.number == y.number ensures x == y {
      var i :| 0 <= i < |s| && s[i] == x;
      var j :| 0 <= j < |s| && s[j] == y;
    }
  }

  lemma ByNumberIncreasing(s: seq<Line>)
    requires Distinct(s)
    ensures Increasing(ByNumber(s))
  {
    var t := ByNumber(s);
    NumbersAreOrdered();
    DistinctIsNoDup(s);
    SortNoDup(NumberOrder(), s);
    SortSorted(NumberOrder(), s);
    ByNumberMembers(s);
    forall i, j | 0 <= i < j < |t| ensures t[i].number < t[j].number {
      assert NumberOrder()(t[i], t[j]) && t[i] in s && t[j] in s;
    }
  }

  // An increasing sequence is determined by its elements.
  lemma IncreasingIsUnique(a: seq<Line>, b: seq<Line>)
    requires Increasing(a) && Increasing(b) && forall x :: x in a <==> x in b
    ensures a == b
  {
    NumbersAreOrdered();
    DistinctIsNoDup(a);
    DistinctIsNoDup(b);
    SortedIsUnique(NumberOrder(), a, b);
  }

  lemma SuffixIsBeyond(rest: seq<Line>, n: nat)
    requires Increasing(rest) && 0 < n <= |rest|
    ensures forall x :: x in rest[n..] <==> x in rest && x.number > rest[n - 1].number
    ensures Increasing(rest[n..])
  {
    forall x ensures x in rest[n..] <==> x in rest && x.number > rest[n - 1].number {
      if x in rest && x.number > rest[n - 1].number { var i :| 0 <= i < |rest| && rest[i] == x; assert rest[n..][i - n] == x; }
      if x in rest[n..] { var i :| 0 <= i < |rest| - n && rest[n..][i] == x; assert rest[n + i] in rest; }
    }
  }

  lemma BeyondInOrder(s: seq<Line>, after: nat)
    requires Distinct(s)
    ensures Increasing(ByNumber(Beyond(s, after)))
    ensures forall x :: x in ByNumber(Beyond(s, after)) <==> x in s && x.number > after
  {
    BeyondMembers(s, after);
    BeyondDistinct(s, after);
    ByNumberMembers(Beyond(s, after));
    ByNumberIncreasing(Beyond(s, after));
  }

  // What a page leaves is what lies beyond its last line.
  lemma PageSplits(s: seq<Line>, after: nat, n: nat)
    requires Distinct(s) && 0 < n <= |ByNumber(Beyond(s, after))|
    ensures var rest := ByNumber(Beyond(s, after)); ByNumber(Beyond(s, rest[n - 1].number)) == rest[n..]
  {
    var rest := ByNumber(Beyond(s, after));
    var next := rest[n - 1].number;
    hide ByNumber, Beyond, Distinct;
    BeyondInOrder(s, after);
    BeyondInOrder(s, next);
    SuffixIsBeyond(rest, n);
    assert rest[n - 1] in rest;
    hide Increasing;
    IncreasingIsUnique(ByNumber(Beyond(s, next)), rest[n..]);
  }

  // Storing a batch again changes nothing.
  lemma {:induction false} AppendHasAll(stored: seq<Line>, batch: seq<Line>)
    ensures forall n :: HasNumber(stored, n) ==> HasNumber(Appended(stored, batch), n)
    ensures forall l :: l in batch ==> HasNumber(Appended(stored, batch), l.number)
  {
    if batch != [] {
      var n := |batch| - 1;
      AppendHasAll(stored, batch[..n]);
      assert batch == batch[..n] + [batch[n]];
      var before, after := Appended(stored, batch[..n]), Appended(stored, batch);
      forall k | HasNumber(before, k) ensures HasNumber(after, k) {
        var i :| 0 <= i < |before| && before[i].number == k;
        assert after[i].number == k;
      }
      if !HasNumber(before, batch[n].number) { assert after[|before|].number == batch[n].number; }
    }
  }

  lemma {:induction false} AppendNothingNew(stored: seq<Line>, batch: seq<Line>)
    requires forall l :: l in batch ==> HasNumber(stored, l.number)
    ensures Appended(stored, batch) == stored
  {
    if batch != [] {
      assert batch == batch[..|batch| - 1] + [batch[|batch| - 1]];
      AppendNothingNew(stored, batch[..|batch| - 1]);
    }
  }

  lemma RetryIsHarmless(stored: seq<Line>, batch: seq<Line>)
    ensures Appended(Appended(stored, batch), batch) == Appended(stored, batch)
  {
    AppendHasAll(stored, batch);
    AppendNothingNew(Appended(stored, batch), batch);
  }

  lemma DistinctPrefix(a: seq<Line>, b: seq<Line>)
    requires Distinct(a + b)
    ensures Distinct(a)
  {
    forall i, j | 0 <= i < j < |a| ensures a[i].number != a[j].number {
      assert (a + b)[i] == a[i] && (a + b)[j] == a[j];
    }
  }

  lemma FreshNumber(a: seq<Line>, l: Line)
    requires Distinct(a + [l])
    ensures !HasNumber(a, l.number) && Distinct(a)
  {
    DistinctPrefix(a, [l]);
    forall i | 0 <= i < |a| ensures a[i].number != l.number {
      assert (a + [l])[i] == a[i] && (a + [l])[|a|] == l;
    }
  }

  lemma {:induction false} AppendFresh(stored: seq<Line>, batch: seq<Line>)
    requires Distinct(stored + batch)
    ensures Appended(stored, batch) == stored + batch
  {
    if batch != [] {
      var n := |batch| - 1;
      assert stored + batch == (stored + batch[..n]) + [batch[n]];
      FreshNumber(stored + batch[..n], batch[n]);
      AppendFresh(stored, batch[..n]);
    }
  }

  // ---- the recorder, its flushes in flight, and the store ----

  // `taken` are batches taken and not yet stored; `lost` those whose storing failed. The last three fields only
  // record what happened: every line given a number, how many task lines were offered, and the notes' numbers.
  datatype Sys = Sys(b: Buffer, taken: seq<seq<Line>>, lost: seq<Line>, stored: seq<Line>,
                     emitted: seq<Line>, offered: nat, notes: seq<nat>)

  datatype Step =
    | Emit(taskKey: Option<string>, attempt: nat, stream: string, message: string)
    | TakeOver
    | Store(i: nat)
    | Lose(i: nat)

  predicate Enabled(s: Sys, step: Step) {
    match step
    case Store(i) => i < |s.taken|
    case Lose(i) => i < |s.taken|
    case _ => true
  }

  function Next(max: nat, note: string, s: Sys, step: Step): Sys
    requires Enabled(s, step)
  {
    match step
    case Emit(taskKey, attempt, stream, message) =>
      var b := Emitted(s.b, max, note, taskKey, attempt, stream, message);
      s.(b := b,
         emitted := s.emitted + b.lines[|s.b.lines|..],
         offered := s.offered + (if stream == SYSTEM then 0 else 1),
         notes := s.notes + (if AtCap(s.b, max, stream) && !s.b.noted then [b.last] else []))
    case TakeOver => s.(b := s.b.(lines := []), taken := s.taken + [s.b.lines])
    case Store(i) => s.(taken := Remove(s.taken, i), stored := Appended(s.stored, s.taken[i]))
    case Lose(i) => s.(taken := Remove(s.taken, i), lost := s.lost + s.taken[i])
  }

  const START := Sys(Buffer(0, [], 0, false), [], [], [], [], 0, [])

  ghost predicate IsRun(max: nat, note: string, states: seq<Sys>, steps: seq<Step>) {
    && |states| == |steps| + 1 && states[0] == START
    && forall k :: 0 <= k < |steps| ==> Enabled(states[k], steps[k]) && states[k + 1] == Next(max, note, states[k], steps[k])
  }

  function Batches(taken: seq<seq<Line>>): multiset<Line> {
    if taken == [] then multiset{} else Batches(taken[..|taken| - 1]) + multiset(taken[|taken| - 1])
  }

  lemma {:induction false} BatchesRemove(taken: seq<seq<Line>>, i: nat)
    requires i < |taken|
    ensures Batches(taken) == multiset(taken[i]) + Batches(Remove(taken, i))
    decreases |taken|
  {
    hide Batches;
    var n := |taken| - 1;
    BatchesSnoc(taken);
    if i < n {
      BatchesRemove(taken[..n], i);
      var rest := Remove(taken, i);
      BatchesSnoc(rest);
      assert rest[..n - 1] == Remove(taken[..n], i) && rest[n - 1] == taken[n] && |rest| == n;
      SumsAssociate(multiset(taken[i]), Batches(rest[..n - 1]), multiset(taken[n]));
    } else {
      assert Remove(taken, i) == taken[..n];
    }
  }

  lemma BatchesSnoc(taken: seq<seq<Line>>)
    requires taken != []
    ensures Batches(taken) == Batches(taken[..|taken| - 1]) + multiset(taken[|taken| - 1])
  {
  }

  lemma SumsAssociate(a: multiset<Line>, b: multiset<Line>, c: multiset<Line>)
    ensures a + b + c == a + (b + c)
  {
  }

  // Where the numbered lines are.
  function Places(s: Sys): multiset<Line> { multiset(s.stored) + multiset(s.lost) + Batches(s.taken) + multiset(s.b.lines) }

  predicate Numbered(s: Sys) { |s.emitted| == s.b.last && forall i :: 0 <= i < |s.emitted| ==> s.emitted[i].number == i + 1 }

  predicate Placed(s: Sys) { Places(s) == multiset(s.emitted) }

  function Tasks(lines: seq<Line>): nat {
    if lines == [] then 0 else Tasks(lines[..|lines| - 1]) + if IsTask(lines[|lines| - 1]) then 1 else 0
  }

  // Task lines offered are accepted or dropped; no accepted one is beyond the cap; the note is there exactly once
  // exactly if something was dropped.
  predicate Accounted(max: nat, note: string, s: Sys) {
    && s.offered == Tasks(s.emitted) + s.b.dropped
    && (forall l :: l in s.emitted && IsTask(l) ==> l.number <= max)
    && (s.b.noted <==> s.b.dropped > 0) && (s.b.noted ==> s.b.last > max)
    && |s.notes| == (if s.b.dropped > 0 then 1 else 0)
    && (forall n :: n in s.notes ==> max < n <= |s.emitted| && s.emitted[n - 1] == Note(n, note))
  }

  lemma TasksNext(lines: seq<Line>, l: Line)
    ensures Tasks(lines + [l]) == Tasks(lines) + if IsTask(l) then 1 else 0
  {
    assert (lines + [l])[..|lines|] == lines;
  }

  lemma NumberedNext(max: nat, note: string, s: Sys, step: Step)
    requires Enabled(s, step) && Numbered(s)
    ensures Numbered(Next(max, note, s, step))
  {
  }

  lemma AccountedNext(max: nat, note: string, s: Sys, step: Step)
    requires Enabled(s, step) && Numbered(s) && Accounted(max, note, s)
    ensures Accounted(max, note, Next(max, note, s, step))
  {
    if step.Emit? {
      AccountedEmit(max, note, s, step);
    }
  }

  lemma AccountedEmit(max: nat, note: string, s: Sys, step: Step)
    requires step.Emit? && Enabled(s, step) && Numbered(s) && Accounted(max, note, s)
    ensures Accounted(max, note, Next(max, note, s, step))
  {
    var q := Next(max, note, s, step);
    if AtCap(s.b, max, step.stream) && s.b.noted {
      assert q.emitted == s.emitted;
    } else {
      var l := q.b.lines[|s.b.lines|];
      assert q.emitted == s.emitted + [l];
      TasksNext(s.emitted, l);
      hide Tasks;
    }
  }

  // What an emitted line is: the next number, with what the task said, unless the cap has been reached; then it is
  // dropped, and the first time a note takes its place.
  lemma EmitSays(max: nat, note: string, s: Sys, step: Step)
    requires step.Emit? && Numbered(s)
    ensures var t, dropped := Next(max, note, s, step), step.stream != SYSTEM && s.b.last >= max;
            && (!dropped ==> t.emitted == s.emitted + [Line(|s.emitted| + 1, step.taskKey, step.attempt, step.stream, step.message)] &&
                             t.b.dropped == s.b.dropped && t.notes == s.notes)
            && (dropped ==> t.b.dropped == s.b.dropped + 1)
            && (dropped && s.b.noted ==> t.emitted == s.emitted && t.notes == s.notes)
            && (dropped && !s.b.noted ==> t.emitted == s.emitted + [Line(|s.emitted| + 1, None, 0, SYSTEM, note)] && t.notes == s.notes + [|s.emitted| + 1])
  {
  }

  lemma RepeatedTwice(s: seq<Line>, i: nat, j: nat)
    requires i < j < |s| && s[i] == s[j]
    ensures multiset(s)[s[i]] >= 2
  {
    assert s == s[..j] + s[j..];
    assert s[i] == s[..j][i] && s[j] == s[j..][0];
    assert s[i] in s[..j] && s[j] in s[j..];
  }

  lemma {:induction false} NumberedOnce(s: seq<Line>, l: Line)
    requires Increasing(s)
    ensures multiset(s)[l] <= 1
  {
    if s != [] {
      var n := |s| - 1;
      assert s == s[..n] + [s[n]];
      NumberedOnce(s[..n], l);
      assert forall i :: 0 <= i < n ==> s[..n][i].number < s[n].number;
    }
  }

  // Lines taken from the numbered ones are distinct.
  lemma PartIsDistinct(part: seq<Line>, emitted: seq<Line>)
    requires multiset(part) <= multiset(emitted) && forall i :: 0 <= i < |emitted| ==> emitted[i].number == i + 1
    ensures Distinct(part)
  {
    forall i, j | 0 <= i < j < |part| ensures part[i].number != part[j].number {
      assert part[i] in multiset(part) && part[j] in multiset(part);
      assert part[i] in emitted && part[j] in emitted;
      if part[i].number == part[j].number {
        RepeatedTwice(part, i, j);
        NumberedOnce(emitted, part[i]);
      }
    }
  }

  lemma SumIncludes(a: multiset<Line>, b: multiset<Line>, c: multiset<Line>, d: multiset<Line>, e: multiset<Line>)
    requires a + b + c + d == e
    ensures a <= e && a + c <= e
  {
  }

  lemma PlacedNextEmit(max: nat, note: string, s: Sys, step: Step)
    requires step.Emit? && Placed(s)
    ensures Placed(Next(max, note, s, step))
  {
    var q := Next(max, note, s, step);
    var added := q.b.lines[|s.b.lines|..];
    assert q.b.lines == s.b.lines + added;
  }

  lemma SumMoves(a: multiset<Line>, b: multiset<Line>, x: multiset<Line>, c: multiset<Line>, d: multiset<Line>)
    ensures (a + x) + b + c + d == a + b + (x + c) + d
    ensures a + (b + x) + c + d == a + b + (x + c) + d
  {
  }

  lemma PlacedNext(max: nat, note: string, s: Sys, step: Step)
    requires Enabled(s, step) && Placed(s) && Numbered(s)
    ensures Placed(Next(max, note, s, step))
  {
    match step
    case Emit(_, _, _, _) => PlacedNextEmit(max, note, s, step);
    case TakeOver =>
      assert (s.taken + [s.b.lines])[..|s.taken|] == s.taken;
    case Store(i) =>
      BatchesRemove(s.taken, i);
      StoringAppends(s, i);
      SumMoves(multiset(s.stored), multiset(s.lost), multiset(s.taken[i]), Batches(Remove(s.taken, i)), multiset(s.b.lines));
    case Lose(i) =>
      BatchesRemove(s.taken, i);
      SumMoves(multiset(s.stored), multiset(s.lost), multiset(s.taken[i]), Batches(Remove(s.taken, i)), multiset(s.b.lines));
  }

  lemma StoringAppends(s: Sys, i: nat)
    requires i < |s.taken| && Placed(s) && Numbered(s)
    ensures Appended(s.stored, s.taken[i]) == s.stored + s.taken[i]
  {
    BatchesRemove(s.taken, i);
    SumIncludes(multiset(s.stored), multiset(s.lost), Batches(s.taken), multiset(s.b.lines), multiset(s.emitted));
    assert multiset(s.stored + s.taken[i]) <= multiset(s.stored) + Batches(s.taken);
    PartIsDistinct(s.stored + s.taken[i], s.emitted);
    AppendFresh(s.stored, s.taken[i]);
  }

  // In every reachable state each number from 1 to the last given is in exactly one place: stored, lost with a
  // failed batch, taken, or buffered.
  lemma {:induction false} EveryLineIsInOnePlace(max: nat, note: string, states: seq<Sys>, steps: seq<Step>, k: nat)
    requires IsRun(max, note, states, steps) && k < |states|
    ensures Numbered(states[k]) && Placed(states[k]) && Accounted(max, note, states[k])
  {
    if k > 0 {
      EveryLineIsInOnePlace(max, note, states, steps, k - 1);
      var s, step := states[k - 1], steps[k - 1];
      assert states[k] == Next(max, note, s, step);
      NumberedNext(max, note, s, step);
      PlacedNext(max, note, s, step);
      AccountedNext(max, note, s, step);
    }
  }

  lemma {:induction false} TasksWithinCap(max: nat, lines: seq<Line>, n: nat)
    requires n <= |lines| && forall i :: 0 <= i < |lines| ==> lines[i].number == i + 1 && (IsTask(lines[i]) ==> lines[i].number <= max)
    ensures Tasks(lines[..n]) <= Min(n, max)
  {
    if n > 0 {
      TasksWithinCap(max, lines, n - 1);
      assert lines[..n] == lines[..n - 1] + [lines[n - 1]];
      TasksNext(lines[..n - 1], lines[n - 1]);
    }
  }

  // The cap: at most `max` task lines are accepted, and what is offered beyond is counted and noted once.
  lemma TaskLinesAddUp(max: nat, note: string, states: seq<Sys>, steps: seq<Step>, k: nat)
    requires IsRun(max, note, states, steps) && k < |states|
    ensures var s := states[k];
            && s.offered == Tasks(s.emitted) + s.b.dropped && Tasks(s.emitted) <= max
            && (|s.notes| == 1 <==> s.b.dropped > 0) && (|s.notes| == 0 <==> s.b.dropped == 0)
            && forall n :: n in s.notes ==> 1 <= n <= |s.emitted| && s.emitted[n - 1] == Note(n, note)
  {
    EveryLineIsInOnePlace(max, note, states, steps, k);
    var s := states[k];
    assert forall i :: 0 <= i < |s.emitted| ==> s.emitted[i] in s.emitted;
    TasksWithinCap(max, s.emitted, |s.emitted|);
    assert s.emitted[..|s.emitted|] == s.emitted;
  }

  // Once everything is flushed and nothing failed, the stored log read in order is every line emitted, whatever
  // order the batches were stored in; and the next number is the one after the last.
  lemma FlushedLogIsComplete(max: nat, note: string, states: seq<Sys>, steps: seq<Step>, k: nat)
    requires IsRun(max, note, states, steps) && k < |states|
    requires states[k].b.lines == [] && states[k].taken == [] && states[k].lost == []
    ensures Distinct(states[k].stored) && ByNumber(states[k].stored) == states[k].emitted && |states[k].emitted| == states[k].b.last
  {
    EveryLineIsInOnePlace(max, note, states, steps, k);
    var s := states[k];
    assert Places(s) == multiset(s.stored);
    PartIsDistinct(s.stored, s.emitted);
    ByNumberMembers(s.stored);
    ByNumberIncreasing(s.stored);
    forall x ensures x in s.stored <==> x in s.emitted {
      assert x in s.stored <==> x in multiset(s.stored);
      assert x in s.emitted <==> x in multiset(s.emitted);
    }
    IncreasingIsUnique(ByNumber(s.stored), s.emitted);
  }

  // Even with failures, what is stored is part of what was emitted, unchanged and without repetition.
  lemma StoredLinesWereEmitted(max: nat, note: string, states: seq<Sys>, steps: seq<Step>, k: nat, l: Line)
    requires IsRun(max, note, states, steps) && k < |states| && l in states[k].stored
    ensures Distinct(states[k].stored) && 1 <= l.number <= |states[k].emitted| && states[k].emitted[l.number - 1] == l
  {
    EveryLineIsInOnePlace(max, note, states, steps, k);
    var s := states[k];
    SumIncludes(multiset(s.stored), multiset(s.lost), Batches(s.taken), multiset(s.b.lines), multiset(s.emitted));
    PartIsDistinct(s.stored, s.emitted);
    assert l in multiset(s.stored);
    assert l in s.emitted;
  }
}
