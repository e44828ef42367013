// Copying a Spark driver's log to stdout (src/booth_pipeline/runners/_spark_client.py): the log comes in chunks
// that end anywhere, lines are printed as they complete, and the task's output marker is kept back.
module DriverLog {
  import opened Basics

  // What starts the line carrying the task's encoded output.
  const OUTPUT := "BOOTH-PIPELINE-OUTPUT "
  const CLEARED := "(booth-spark has already cleared this run's log)"
  const TAIL: nat := 500

  function Lines(s: string): (ps: seq<string>)
    ensures ps != []
  {
    Split(s, '\n')
  }

  function JoinLines(ps: seq<string>): string
    requires ps != []
  {
    if |ps| == 1 then ps[0] else ps[0] + ['\n'] + JoinLines(ps[1..])
  }

  // Splitting loses nothing and leaves no line break inside a line.
  lemma {:induction false} SplitRebuilds(s: string)
    ensures JoinLines(Lines(s)) == s
    ensures forall k :: 0 <= k < |Lines(s)| ==> '\n' !in Lines(s)[k]
  {
    if s != [] {
      var r, ps := Lines(s[1..]), Lines(s);
      SplitRebuilds(s[1..]);
      assert ps[1..] == if s[0] == '\n' then r else r[1..];
      assert s == [s[0]] + s[1..];
      if s[0] == '\n' {
        assert JoinLines(ps) == [] + ['\n'] + JoinLines(r) == ['\n'] + JoinLines(r);
      } else if |r| > 1 {
        assert [s[0]] + r[0] + ['\n'] + JoinLines(r[1..]) == [s[0]] + (r[0] + ['\n'] + JoinLines(r[1..]));
      }
    }
  }

  // str.rstrip("\r")
  function Stripped(s: string): (r: string)
    ensures r <= s && (r == [] || r[|r| - 1] != '\r') && forall i :: |r| <= i < |s| ==> s[i] == '\r'
  {
    if s != [] && s[|s| - 1] == '\r' then Stripped(s[..|s| - 1]) else s
  }

  function StripAll(ps: seq<string>): (qs: seq<string>)
    ensures |qs| == |ps| && forall k :: 0 <= k < |ps| ==> qs[k] == Stripped(ps[k])
  {
    seq(|ps|, k requires 0 <= k < |ps| => Stripped(ps[k]))
  }

  // The finished lines of a text, and what follows its last line break.
  function Finished(s: string): seq<string> { StripAll(Lines(s)[..|Lines(s)| - 1]) }

  function Rest(s: string): string { Lines(s)[|Lines(s)| - 1] }

  // The lines of a whole log, split once: a last line without a line break counts, as it stands.
  function LogLines(s: string): seq<string> { Finished(s) + Unfinished(s) }

  function Unfinished(s: string): seq<string> { Pending(Rest(s)) }

  function Pending(rest: string): seq<string> { if rest != [] then [rest] else [] }

  // Splitting a character and what follows it.
  function Cons(c: char, r: seq<string>): seq<string>
    requires r != []
  {
    if c == '\n' then [[]] + r else [[c] + r[0]] + r[1..]
  }

  lemma SplitCons(c: char, s: string)
    ensures Lines([c] + s) == Cons(c, Lines(s))
  {
    assert ([c] + s)[1..] == s;
  }

  // What a first character adds leaves a later tail alone, unless it grows the only part.
  lemma ConsKeepsTail(c: char, r: seq<string>, tail: seq<string>)
    requires r != [] && tail != [] && (c == '\n' || |r| > 1)
    ensures var q, n := Cons(c, r), |r| - 1;
            |q| > 0 && q[|q| - 1] == r[n] && Cons(c, r[..n] + tail) == q[..|q| - 1] + tail
  {
  }

  lemma ConsGrows(c: char, r: seq<string>)
    requires |r| == 1 && c != '\n'
    ensures Cons(c, r) == [[c] + r[0]]
  {
  }

  lemma {:induction false} SplitConcat(a: string, b: string)
    ensures Lines(a + b) == Lines(a)[..|Lines(a)| - 1] + Lines(Rest(a) + b)
  {
    hide Cons, Lines;
    if a == [] {
      assert a + b == b;
      SplitNothing();
      assert [[]][..0] + Lines(b) == Lines(b) && [] + b == b;
    } else {
      var c, r := a[0], Lines(a[1..]);
      var n, tail := |r| - 1, Lines(r[|r| - 1] + b);
      SplitConcat(a[1..], b);
      assert a == [c] + a[1..] && a + b == [c] + (a[1..] + b);
      SplitCons(c, a[1..]);
      SplitCons(c, a[1..] + b);
      if c != '\n' && n == 0 {
        ConsGrows(c, r);
        SplitCons(c, r[0] + b);
        assert [c] + r[0] + b == [c] + (r[0] + b);
        assert r[..0] + tail == tail && [[c] + r[0]][..0] + Cons(c, tail) == Cons(c, tail);
      } else {
        ConsKeepsTail(c, r, tail);
      }
    }
  }

  lemma SplitNothing()
    ensures Lines("") == [[]]
  {
  }

  // A chunk adds the lines it completes, wherever it starts and ends.
  lemma ChunkAdds(log: string, chunk: string)
    ensures Finished(log + chunk) == Finished(log) + Finished(Rest(log) + chunk)
    ensures Rest(log + chunk) == Rest(Rest(log) + chunk)
  {
    SplitConcat(log, chunk);
    var a, b := Lines(log)[..|Lines(log)| - 1], Lines(Rest(log) + chunk);
    assert (a + b)[..|a + b| - 1] == a + b[..|b| - 1];
  }

  lemma FinishedOf(s: string)
    ensures Lines(s) != [] && Finished(s) == StripAll(Lines(s)[..|Lines(s)| - 1]) && Rest(s) == Lines(s)[|Lines(s)| - 1]
  {
  }

  predicate IsMarker(line: string) { OUTPUT <= line }

  // What is printed of some lines: all but the markers.
  function Printed(lines: seq<string>): seq<string> {
    if lines == [] then []
    else Printed(lines[..|lines| - 1]) + if IsMarker(lines[|lines| - 1]) then [] else [lines[|lines| - 1]]
  }

  lemma PrintedNext(lines: seq<string>, line: string)
    ensures Printed(lines + [line]) == Printed(lines) + if IsMarker(line) then [] else [line]
  {
    assert (lines + [line])[..|lines|] == lines;
  }

  lemma PrintedOne(line: string)
    ensures Printed([line]) == if IsMarker(line) then [] else [line]
  {
    PrintedNext([], line);
    assert [] + [line] == [line];
  }

  lemma {:induction false} PrintedConcat(a: seq<string>, b: seq<string>)
    ensures Printed(a + b) == Printed(a) + Printed(b)
  {
    assert Printed([]) == [];
    hide IsMarker, Printed;
    if b == [] {
      assert a + b == a;
    } else {
      var front, last := b[..|b| - 1], b[|b| - 1];
      PrintedConcat(a, front);
      PrintedNext(a + front, last);
      PrintedNext(front, last);
      assert b == front + [last] && a + b == a + front + [last];
    }
  }

  lemma LastNext(lines: seq<string>, line: string)
    ensures Last(Last(lines, TAIL) + [line], TAIL) == Last(lines + [line], TAIL)
  {
  }

  // The payload of the last marker of some lines.
  predicate IsLastMarker(lines: seq<string>, payload: string, i: nat) {
    i < |lines| && lines[i] == OUTPUT + payload && forall j :: i < j < |lines| ==> !IsMarker(lines[j])
  }

  // A reply to a poll with the cursor, and to the request for the kept log.
  datatype Reply = Chunk(text: string, next: int) | NoCursor
  datatype KeptLog = Kept(text: string) | Gone | Unavailable

  class LogCopy {
    var offset: Option<int>
    var partial: string
    var tail: seq<string>
    var stdout: seq<string>
    ghost var log: string           // all text taken in so far
    ghost var lines: seq<string>    // all lines handled so far

    // Between calls every finished line of the text has been handled, once and in order.
    ghost predicate Valid()
      reads this
    {
      tail == Last(lines, TAIL) && stdout == Printed(lines) && lines == Finished(log) && partial == Rest(log)
    }

    constructor ()
      ensures Valid() && log == "" && offset == Some(0)
    {
      offset, partial, tail, stdout, log, lines := Some(0), "", [], [], "", [];
    }

    method Line(line: string)
      requires tail == Last(lines, TAIL)
      modifies this`tail, this`stdout, this`lines
      ensures tail == Last(lines, TAIL) && lines == old(lines) + [line] && stdout == old(stdout) + Printed([line])
    {
      hide *;
      PrintedOne(line);
      LastNext(lines, line);
      tail := Last(tail + [line], TAIL);
      if !IsMarker(line) {
        stdout := stdout + [line];
      }
      lines := lines + [line];
    }

    method Emit(text: string)
      requires Valid()
      modifies this`partial, this`tail, this`stdout, this`log, this`lines
      ensures Valid() && log == old(log) + text
    {
      var ps := Lines(partial + text);
      ChunkAdds(log, text);
      FinishedOf(partial + text);
      var n := |ps| - 1;
      hide Lines, Finished, Rest, Printed, Last, IsMarker, Stripped;
      partial := ps[n];
      for i := 0 to n
        invariant tail == Last(lines, TAIL) && stdout == Printed(lines) && lines == old(lines) + StripAll(ps[..i])
        invariant partial == ps[n] && log == old(log)
      {
        assert StripAll(ps[..i + 1]) == StripAll(ps[..i]) + [Stripped(ps[i])];
        PrintedConcat(lines, [Stripped(ps[i])]);
        Line(Stripped(ps[i]));
      }
      log := log + text;
    }

    method Poll(reply: Reply)
      requires Valid()
      modifies this
      ensures Valid()
      ensures log == if old(offset).Some? && reply.Chunk? then old(log) + reply.text else old(log)
      ensures offset == if old(offset).Some? && reply.Chunk? then Some(reply.next) else None
    {
      if offset.None? {
        return;
      }
      match reply
      case NoCursor =>
        offset := None;
      case Chunk(text, next) =>
        Emit(text);
        offset := Some(next);
    }

    // The end of the log. When the last poll has a cursor, stdout is the whole text split once.
    method Finish(reply: Reply, kept: KeptLog)
      requires Valid()
      modifies this
      ensures partial == "" && tail == Last(lines, TAIL) && lines == LogLines(log)
      ensures offset.Some? <==> old(offset).Some? && reply.Chunk?
      ensures offset.Some? ==> log == old(log) + reply.text
      ensures offset.None? ==> log == old(log) + (if kept.Kept? then kept.text + "\n" else "")
      ensures stdout == Printed(Finished(log)) + (if offset.None? && kept.Gone? then [CLEARED] else []) + Printed(Unfinished(log))
    {
      hide Lines, Finished, Rest, Printed, Last, IsMarker, Pending;
      if offset.Some? {
        Poll(reply);
      }
      if offset.None? {
        Fallback(kept);
      }
      Flush();
    }

    // Without a cursor the whole kept log is copied at the end.
    method Fallback(kept: KeptLog)
      requires Valid() && offset.None?
      modifies this
      ensures offset.None? && tail == Last(lines, TAIL) && lines == Finished(log) && partial == Rest(log)
      ensures log == old(log) + (if kept.Kept? then kept.text + "\n" else "")
      ensures stdout == Printed(Finished(log)) + if kept.Gone? then [CLEARED] else []
    {
      hide Lines, Finished, Rest, Printed, Last, IsMarker;
      match kept
      case Kept(text) => Emit(text + "\n");
      case Gone => stdout := stdout + [CLEARED];
      case Unavailable =>
    }

    method Flush()
      requires tail == Last(lines, TAIL)
      modifies this`partial, this`tail, this`stdout, this`lines
      ensures partial == "" && tail == Last(lines, TAIL)
      ensures lines == old(lines) + Pending(old(partial)) && stdout == old(stdout) + Printed(Pending(old(partial)))
    {
      assert Printed([]) == [];
      hide Last, IsMarker, Printed;
      if partial != "" {
        Line(partial);
        partial := "";
      }
    }

    // The last marker among the lines still kept.
    method Output() returns (payload: Option<string>)
      ensures payload.None? ==> forall i :: 0 <= i < |tail| ==> !IsMarker(tail[i])
      ensures payload.Some? ==> exists i: nat :: IsLastMarker(tail, payload.value, i)
    {
      var i := |tail|;
      while i > 0
        invariant 0 <= i <= |tail|
        invariant forall j :: i <= j < |tail| ==> !IsMarker(tail[j])
      {
        i := i - 1;
        if IsMarker(tail[i]) {
          assert tail[i] == OUTPUT + tail[i][|OUTPUT|..];
          assert IsLastMarker(tail, tail[i][|OUTPUT|..], i);
          return Some(tail[i][|OUTPUT|..]);
        }
      }
      payload := None;
    }
  }

  function Concat(chunks: seq<string>): string {
    if chunks == [] then "" else Concat(chunks[..|chunks| - 1]) + chunks[|chunks| - 1]
  }

  // The result is the log's last marker if one is among its last 500 lines, and nothing otherwise.
  ghost predicate IsOutputOf(log: string, payload: Option<string>) {
    var kept := Last(LogLines(log), TAIL);
    && (payload.None? <==> forall i :: 0 <= i < |kept| ==> !IsMarker(kept[i]))
    && (payload.Some? ==> exists i: nat :: IsLastMarker(LogLines(log), payload.value, i))
  }

  lemma LastOfTail(lines: seq<string>, payload: string, i: nat)
    requires IsLastMarker(Last(lines, TAIL), payload, i)
    ensures IsMarker(Last(lines, TAIL)[i])
    ensures exists j: nat :: IsLastMarker(lines, payload, j)
  {
    var d := |lines| - |Last(lines, TAIL)|;
    assert OUTPUT <= OUTPUT + payload;
    hide IsMarker;
    assert forall h :: 0 <= h < |Last(lines, TAIL)| ==> Last(lines, TAIL)[h] == lines[d + h];
    forall j | d + i < j < |lines| ensures !IsMarker(lines[j]) { assert lines[j] == Last(lines, TAIL)[j - d]; }
    assert IsLastMarker(lines, payload, d + i);
  }

  // A log's last marker is the result exactly when it is one of the last 500 lines.
  lemma LastMarkerIsOutputIff(log: string, output: Option<string>, payload: string, i: nat)
    requires IsOutputOf(log, output) && IsLastMarker(LogLines(log), payload, i)
    ensures output == if |LogLines(log)| - i <= 500 then Some(payload) else None
  {
    var all := LogLines(log);
    var kept := Last(all, TAIL);
    var d := |all| - |kept|;
    assert OUTPUT <= OUTPUT + payload;
    hide LogLines;
    assert forall h :: 0 <= h < |kept| ==> kept[h] == all[d + h];
    if output.Some? {
      var j: nat :| IsLastMarker(all, output.value, j);
      assert OUTPUT <= OUTPUT + output.value;
      assert i == j && all[i][|OUTPUT|..] == payload == output.value;
    }
    if d <= i { assert IsMarker(kept[i - d]); }
  }

  // A run whose polls all succeed: however the log is cut into chunks, stdout is what splitting it once gives
  // without the markers, and the output is its last marker.
  method CopyRun(chunks: seq<Reply>, last: Reply) returns (stdout: seq<string>, output: Option<string>)
    requires last.Chunk? && forall i :: 0 <= i < |chunks| ==> chunks[i].Chunk?
    ensures var log := Concat(Texts(chunks)) + last.text;
            stdout == Printed(LogLines(log)) && IsOutputOf(log, output)
  {
    hide Lines, Finished, Rest, Printed, Last, IsMarker;
    var copy := new LogCopy();
    for i := 0 to |chunks|
      invariant copy.Valid() && copy.offset.Some? && copy.log == Concat(Texts(chunks[..i]))
    {
      copy.Poll(chunks[i]);
      TextsSnoc(chunks, i);
    }
    assert chunks[..|chunks|] == chunks;
    copy.Finish(last, Unavailable);
    PrintedConcat(Finished(copy.log), Unfinished(copy.log));
    stdout := copy.stdout;
    output := copy.Output();
    if output.Some? {
      var i: nat :| IsLastMarker(copy.tail, output.value, i);
      LastOfTail(copy.lines, output.value, i);
    }
  }

  lemma TextsSnoc(chunks: seq<Reply>, i: nat)
    requires i < |chunks| && forall k :: 0 <= k < |chunks| ==> chunks[k].Chunk?
    ensures Concat(Texts(chunks[..i + 1])) == Concat(Texts(chunks[..i])) + chunks[i].text
  {
    assert Texts(chunks[..i + 1])[..i] == Texts(chunks[..i]);
  }

  function Texts(chunks: seq<Reply>): (r: seq<string>)
    requires forall i :: 0 <= i < |chunks| ==> chunks[i].Chunk?
    ensures |r| == |chunks| && forall i :: 0 <= i < |r| ==> r[i] == chunks[i].text
  {
    seq(|chunks|, i requires 0 <= i < |chunks| => chunks[i].text)
  }

  // What the server answers, one poll after another: the log from the cursor, and where the next poll starts.
  predicate Serves(log: string, chunks: seq<Reply>) {
    chunks == [] ||
    var n := |chunks| - 1;
    var c, at := chunks[n], Cursor(chunks[..n]);
    Serves(log, chunks[..n]) && c.Chunk? && 0 <= at <= c.next <= |log| && c.text == log[at..c.next]
  }

  function Cursor(chunks: seq<Reply>): int {
    if chunks == [] || chunks[|chunks| - 1].NoCursor? then 0 else chunks[|chunks| - 1].next
  }

  // With the cursor every part of the log is copied once: what was taken in is the log up to the cursor.
  lemma {:induction false} CopiedOnce(log: string, chunks: seq<Reply>)
    requires Serves(log, chunks)
    ensures forall i :: 0 <= i < |chunks| ==> chunks[i].Chunk?
    ensures 0 <= Cursor(chunks) <= |log| && Concat(Texts(chunks)) == log[..Cursor(chunks)]
  {
    if chunks != [] {
      var n := |chunks| - 1;
      CopiedOnce(log, chunks[..n]);
      assert forall i :: 0 <= i < n ==> chunks[i] == chunks[..n][i];
      assert Texts(chunks)[..n] == Texts(chunks[..n]);
      var a, b := Cursor(chunks[..n]), chunks[n].next;
      assert log[..a] + log[a..b] == log[..b];
    }
  }
}
