// What becomes of an outage the trigger is told of, over whole runs of the trigger protocol. Each gets a token, as
// events do, and the ledger says where each one is; the program keeps only a flag, in the row, in a claimed fire and
// in a created run.
module Outages {
  import opened Basics
  import opened Triggers
  import P = TriggerProtocol

  // `flights` and `runs` go with the protocol's; `runIds` are the runs' ids.
  datatype Ledger = Ledger(
    pending: seq<P.Token>, flights: seq<seq<P.Token>>, runIds: seq<string>, runs: seq<seq<P.Token>>,
    skipped: multiset<P.Token>, discarded: multiset<P.Token>, lost: multiset<P.Token>)

  const EMPTY_LEDGER := Ledger([], [], [], [], multiset{}, multiset{}, multiset{})

  // An outage goes where the burst goes that it was pending with.
  function After(l: Ledger, p: P.Protocol, s: P.Step): Ledger
    requires P.Enabled(p, s) && |l.flights| == |p.flights|
  {
    match s
    case MissEvents(_, _) => l.(pending := l.pending + [p.outages])
    case Claim(t, now, startsNow) =>
      if !P.IsDue(P.Released(p.st, t, now), now) then l
      else if startsNow then l.(flights := l.flights + [l.pending], pending := [])
      else if t.whenRunning == QueueOne then l
      else l.(skipped := l.skipped + multiset(l.pending), pending := [])
    case Start(i, runId) => l.(flights := Remove(l.flights, i), runIds := l.runIds + [runId], runs := l.runs + [l.flights[i]])
    case Lose(i) => l.(flights := Remove(l.flights, i), lost := l.lost + multiset(l.flights[i]))
    case Requeue(i, t, _, _) =>
      var q := l.(flights := Remove(l.flights, i));
      if t.whenRunning == Skip then q.(skipped := l.skipped + multiset(l.flights[i])) else q.(pending := l.flights[i] + l.pending)
    case TurnOff => l.(discarded := l.discarded + multiset(l.pending), pending := [])
    case _ => l
  }

  // The flags say exactly which bursts hold an outage.
  ghost predicate Flagged(p: P.Protocol, l: Ledger) {
    && |l.flights| == |p.flights| && |l.runs| == |l.runIds| == |p.carried|
    && (p.st.missedEvents <==> l.pending != [])
    && (forall i :: 0 <= i < |l.flights| ==> (p.flights[i].fired.missedEvents <==> l.flights[i] != []))
    && (forall r :: 0 <= r < |l.runs| ==> RunFlagged(p.carried[r], l, r))
  }

  predicate RunFlagged(c: P.Carried, l: Ledger, r: nat)
    requires r < |l.runs| == |l.runIds|
  {
    l.runIds[r] == c.runId && (c.fired.missedEvents <==> l.runs[r] != [])
  }

  function Sum(bursts: seq<seq<P.Token>>): multiset<P.Token> {
    if bursts == [] then multiset{} else Sum(bursts[..|bursts| - 1]) + multiset(bursts[|bursts| - 1])
  }

  // Each of the n outages told is in exactly one place.
  ghost predicate Placed(l: Ledger, n: nat) {
    P.Upto(n) == multiset(l.pending) + (Sum(l.flights) + Sum(l.runs)) + l.skipped + (l.discarded + l.lost)
  }

  lemma SumSnoc(bursts: seq<seq<P.Token>>, b: seq<P.Token>)
    ensures Sum(bursts + [b]) == Sum(bursts) + multiset(b)
  {
    assert (bursts + [b])[..|bursts|] == bursts;
  }

  lemma {:induction false} SumRemove(bursts: seq<seq<P.Token>>, i: nat)
    requires i < |bursts|
    ensures Sum(bursts) == multiset(bursts[i]) + Sum(Remove(bursts, i))
    decreases |bursts|
  {
    hide Sum;
    var n := |bursts| - 1;
    assert bursts == bursts[..n] + [bursts[n]];
    SumSnoc(bursts[..n], bursts[n]);
    if i < n {
      SumRemove(bursts[..n], i);
      assert Remove(bursts, i) == Remove(bursts[..n], i) + [bursts[n]];
      SumSnoc(Remove(bursts[..n], i), bursts[n]);
      P.SumAssociates(multiset(bursts[i]), Sum(Remove(bursts[..n], i)), multiset(bursts[n]));
    } else {
      assert Remove(bursts, i) == bursts[..n];
    }
  }

  // ---- the flags ----

  lemma FlaggedRuns(p: P.Protocol, l: Ledger, q: P.Protocol, m: Ledger, i: nat, runId: string)
    requires Flagged(p, l) && i < |p.flights|
    requires q.carried == p.carried + [P.Carried(runId, p.flights[i].fired, p.flights[i].burst)]
    requires m.runIds == l.runIds + [runId] && m.runs == l.runs + [l.flights[i]]
    ensures forall r :: 0 <= r < |m.runs| ==> RunFlagged(q.carried[r], m, r)
  {
    forall r | 0 <= r < |m.runs| ensures RunFlagged(q.carried[r], m, r) {
      if r < |l.runs| { assert RunFlagged(p.carried[r], l, r); }
    }
  }

  lemma FlaggedRest(p: P.Protocol, l: Ledger, i: nat)
    requires Flagged(p, l) && i < |p.flights|
    ensures |Remove(l.flights, i)| == |Remove(p.flights, i)|
    ensures forall j :: 0 <= j < |Remove(l.flights, i)| ==> (Remove(p.flights, i)[j].fired.missedEvents <==> Remove(l.flights, i)[j] != [])
  {
  }

  lemma SameRuns(p: P.Protocol, l: Ledger, q: P.Protocol, m: Ledger)
    requires Flagged(p, l) && q.carried == p.carried && m.runs == l.runs && m.runIds == l.runIds
    ensures forall r :: 0 <= r < |m.runs| ==> RunFlagged(q.carried[r], m, r)
  {
    forall r | 0 <= r < |m.runs| ensures RunFlagged(q.carried[r], m, r) { assert RunFlagged(p.carried[r], l, r); }
  }

  // A claim hands the flag out with the fire, keeps it, or drops it with a skipped burst.
  lemma ClaimedFlag(st: State, t: EventTrigger, now: Instant, startsNow: bool)
    ensures var r, st', fire := P.Released(st, t, now), P.ClaimedRow(st, t, now, startsNow), P.ClaimedFire(st, t, now, startsNow);
            && r.missedEvents == st.missedEvents && (fire.Some? <==> P.IsDue(r, now) && startsNow)
            && (fire.Some? ==> fire.value.missedEvents == st.missedEvents && fire.value == FiredBy(r))
            && (st'.missedEvents <==> st.missedEvents && !(P.IsDue(r, now) && (startsNow || t.whenRunning == Skip)))
  {
  }

  lemma FlaggedClaim(p: P.Protocol, l: Ledger, s: P.Step)
    requires Flagged(p, l) && s.Claim? && P.Enabled(p, s)
    ensures Flagged(P.Next(p, s), After(l, p, s))
  {
    ClaimedFlag(p.st, s.t, s.now, s.startsNow);
    SameRuns(p, l, P.Next(p, s), After(l, p, s));
    hide P.Released, P.ClaimedRow, P.IsDue, RunFlagged;
  }

  lemma FlaggedFlight(p: P.Protocol, l: Ledger, s: P.Step)
    requires Flagged(p, l) && (s.Start? || s.Lose? || s.Requeue?) && P.Enabled(p, s)
    ensures Flagged(P.Next(p, s), After(l, p, s))
  {
    FlaggedRest(p, l, s.flight);
    if s.Start? {
      FlaggedRuns(p, l, P.Next(p, s), After(l, p, s), s.flight, s.runId);
    } else {
      SameRuns(p, l, P.Next(p, s), After(l, p, s));
    }
    hide RunFlagged;
  }

  lemma FlaggedElse(p: P.Protocol, l: Ledger, s: P.Step)
    requires Flagged(p, l) && !s.Claim? && !s.Start? && !s.Lose? && !s.Requeue?
    ensures Flagged(P.Next(p, s), After(l, p, s))
  {
    assert P.Next(p, s).carried == p.carried && P.Next(p, s).flights == p.flights && After(l, p, s).flights == l.flights;
    SameRuns(p, l, P.Next(p, s), After(l, p, s));
    hide RunFlagged;
  }

  lemma FlaggedNext(p: P.Protocol, l: Ledger, s: P.Step)
    requires Flagged(p, l) && P.Enabled(p, s)
    ensures Flagged(P.Next(p, s), After(l, p, s))
  {
    hide P.Next, After;
    if s.Claim? { FlaggedClaim(p, l, s); } else if s.Start? || s.Lose? || s.Requeue? { FlaggedFlight(p, l, s); } else { FlaggedElse(p, l, s); }
  }

  // ---- one place each ----

  lemma PlacedFlight(p: P.Protocol, l: Ledger, s: P.Step)
    requires Placed(l, p.outages) && |l.flights| == |p.flights| && (s.Start? || s.Lose? || s.Requeue?) && P.Enabled(p, s)
    ensures Placed(After(l, p, s), p.outages)
  {
    var b, rest := l.flights[s.flight], Remove(l.flights, s.flight);
    SumRemove(l.flights, s.flight);
    SumSnoc(l.runs, b);
    assert multiset(b + l.pending) == multiset(b) + multiset(l.pending);
    MoveOne(P.Upto(p.outages), multiset(l.pending), Sum(l.flights), Sum(l.runs), l.skipped, l.discarded, l.lost, multiset(b), Sum(rest));
    hide Sum, P.Upto, P.Enabled, Remove, After;
    FlightGoes(p, l, s, b, rest);
  }

  // The ledger after a flight ended, spelled out.
  lemma FlightGoes(p: P.Protocol, l: Ledger, s: P.Step, b: seq<P.Token>, rest: seq<seq<P.Token>>)
    requires (s.Start? || s.Lose? || s.Requeue?) && P.Enabled(p, s) && |l.flights| == |p.flights|
    requires b == l.flights[s.flight] && rest == Remove(l.flights, s.flight)
    ensures s.Start? ==> After(l, p, s) == l.(flights := rest, runIds := l.runIds + [s.runId], runs := l.runs + [b])
    ensures s.Lose? ==> After(l, p, s) == l.(flights := rest, lost := l.lost + multiset(b))
    ensures s.Requeue? && s.t.whenRunning == Skip ==> After(l, p, s) == l.(flights := rest, skipped := l.skipped + multiset(b))
    ensures s.Requeue? && s.t.whenRunning != Skip ==> After(l, p, s) == l.(flights := rest, pending := b + l.pending)
  {
  }

  lemma MoveOne(total: multiset<P.Token>, a: multiset<P.Token>, f: multiset<P.Token>, r: multiset<P.Token>, d: multiset<P.Token>,
                e: multiset<P.Token>, l: multiset<P.Token>, x: multiset<P.Token>, rest: multiset<P.Token>)
    requires total == a + (f + r) + d + (e + l) && f == x + rest
    ensures total == a + (rest + (r + x)) + d + (e + l)
    ensures total == a + (rest + r) + d + (e + (l + x))
    ensures total == a + (rest + r) + (d + x) + (e + l)
    ensures total == (x + a) + (rest + r) + d + (e + l)
  {
  }

  lemma MovePending(total: multiset<P.Token>, a: multiset<P.Token>, f: multiset<P.Token>, r: multiset<P.Token>, d: multiset<P.Token>,
                    e: multiset<P.Token>, l: multiset<P.Token>)
    requires total == a + (f + r) + d + (e + l)
    ensures total == multiset{} + ((f + a) + r) + d + (e + l)
    ensures total == multiset{} + (f + r) + (d + a) + (e + l)
    ensures total == multiset{} + (f + r) + d + ((e + a) + l)
  {
  }

  lemma PlacedPending(p: P.Protocol, l: Ledger, s: P.Step)
    requires Placed(l, p.outages) && |l.flights| == |p.flights| && (s.Claim? || s.TurnOff?) && P.Enabled(p, s)
    ensures Placed(After(l, p, s), p.outages)
  {
    hide Sum, P.Upto, P.IsDue, P.Released;
    NoTokens();
    SumSnoc(l.flights, l.pending);
    MovePending(P.Upto(p.outages), multiset(l.pending), Sum(l.flights), Sum(l.runs), l.skipped, l.discarded, l.lost);
  }

  lemma NoTokens()
    ensures var none: seq<P.Token> := []; multiset(none) == multiset{}
  {
  }

  lemma PlacedOutage(p: P.Protocol, l: Ledger, s: P.Step)
    requires Placed(l, p.outages) && |l.flights| == |p.flights| && s.MissEvents?
    ensures Placed(After(l, p, s), p.outages + 1)
  {
    assert multiset(l.pending + [p.outages]) == multiset(l.pending) + multiset{p.outages};
    assert P.Upto(p.outages + 1) == P.Upto(p.outages) + multiset{p.outages};
    hide Sum, P.Upto;
    AddOne(P.Upto(p.outages), multiset(l.pending), Sum(l.flights) + Sum(l.runs), l.skipped, l.discarded + l.lost, multiset{p.outages});
  }

  lemma AddOne(total: multiset<P.Token>, a: multiset<P.Token>, b: multiset<P.Token>, c: multiset<P.Token>, d: multiset<P.Token>, x: multiset<P.Token>)
    requires total == a + b + c + d
    ensures total + x == (a + x) + b + c + d
  {
  }

  lemma OutagesCounted(p: P.Protocol, s: P.Step)
    requires P.Enabled(p, s)
    ensures P.Next(p, s).outages == if s.MissEvents? then p.outages + 1 else p.outages
  {
    hide Ingested, Finished, Missed, Reset, P.ClaimedRow, P.RequeuedRow, P.Released, P.IsDue;
  }

  lemma PlacedNext(p: P.Protocol, l: Ledger, s: P.Step)
    requires Placed(l, p.outages) && |l.flights| == |p.flights| && P.Enabled(p, s)
    ensures Placed(After(l, p, s), P.Next(p, s).outages)
  {
    OutagesCounted(p, s);
    hide Placed, P.Next;
    if s.Start? || s.Lose? || s.Requeue? {
      PlacedFlight(p, l, s);
    } else if s.Claim? || s.TurnOff? {
      PlacedPending(p, l, s);
    } else if s.MissEvents? {
      PlacedOutage(p, l, s);
    }
  }

  // ---- over a run ----

  ghost function Ledgers(states: seq<P.Protocol>, steps: seq<P.Step>, k: nat): (l: Ledger)
    requires P.IsRun(states, steps) && k < |states|
    ensures |l.flights| == |states[k].flights|
  {
    if k == 0 then EMPTY_LEDGER
    else
      var before := Ledgers(states, steps, k - 1);
      assert states[k] == P.Next(states[k - 1], steps[k - 1]);
      KeepsStep(before, states[k - 1], steps[k - 1]);
      After(before, states[k - 1], steps[k - 1])
  }

  lemma KeepsStep(l: Ledger, p: P.Protocol, s: P.Step)
    requires P.Enabled(p, s) && |l.flights| == |p.flights|
    ensures |After(l, p, s).flights| == |P.Next(p, s).flights|
  {
    hide Ingested, Finished, Missed, Reset, P.ClaimedRow, P.RequeuedRow, P.Released, P.IsDue;
  }

  // Over any run the row, each claimed fire and each created run say that events may have been missed exactly when an
  // outage came with their burst, also after a fire was put back; and every outage told is in exactly one place:
  // pending, in flight, told to a run, skipped with its burst, discarded when the trigger was turned off, or lost
  // with its fire.
  lemma {:induction false} OutagesAreTold(states: seq<P.Protocol>, steps: seq<P.Step>, k: nat)
    requires P.IsRun(states, steps) && k < |states|
    ensures var l := Ledgers(states, steps, k); Flagged(states[k], l) && Placed(l, states[k].outages)
  {
    if k > 0 {
      hide Flagged, Placed, P.Next, P.Enabled;
      OutagesAreTold(states, steps, k - 1);
      var p, s, l := states[k - 1], steps[k - 1], Ledgers(states, steps, k - 1);
      assert states[k] == P.Next(p, s);
      FlaggedNext(p, l, s);
      PlacedNext(p, l, s);
    }
  }
}
