// How long a burst waits, over whole runs of the trigger protocol: a timer is never further away than the debounce
// after one of the events it is for, so a burst that goes quiet fires.
module Debounce {
  import opened Basics
  import opened Triggers
  import P = TriggerProtocol

  // A set timer is at most the debounce after event n was heard.
  predicate DueAfter(st: State, heard: seq<Instant>, n: int, b: P.Bounds) {
    st.fireAt.Some? && 0 <= n < |heard| && st.fireAt.value <= heard[n] + Seconds(b.maxDebounce)
  }

  // Or it was set for at once, by a run's end or an outage; or it is held back by the gap.
  predicate AtOnceOrGap(st: State, b: P.Bounds) {
    && st.fireAt.Some?
    && (|| (st.pendingSince.Some? && st.fireAt.value <= st.pendingSince.value)
        || (st.lastFiredAt.Some? && st.fireAt.value <= st.lastFiredAt.value + Seconds(b.maxGap)))
  }

  ghost predicate TimerIsNear(p: P.Protocol, b: P.Bounds) {
    p.st.fireAt.Some? ==> AtOnceOrGap(p.st, b) || exists n :: n in p.burst && DueAfter(p.st, p.heard, n, b)
  }

  // lastEventAt is when event m was heard, and nothing pending or in flight came later.
  ghost predicate LastHeard(p: P.Protocol, m: int) {
    && 0 <= m < |p.heard| && p.st.lastEventAt == Some(p.heard[m])
    && (forall n :: n in p.burst ==> n <= m)
    && (forall f, n :: f in p.flights && n in f.burst ==> n <= m)
  }

  ghost predicate NothingWaits(p: P.Protocol) { p.burst == [] && forall f :: f in p.flights ==> f.burst == [] }

  ghost predicate Debounced(p: P.Protocol, b: P.Bounds) {
    |p.heard| == |p.log| && TimerIsNear(p, b) && (NothingWaits(p) || exists m :: LastHeard(p, m))
  }

  lemma NearIngest(p: P.Protocol, s: P.Step, b: P.Bounds)
    requires Debounced(p, b) && s.Ingest? && P.StepWithin(s, b)
    ensures TimerIsNear(P.Next(p, s), b)
  {
    var q, token := P.Next(p, s), |p.log|;
    IngestCases(p.st, s.t, s.ev, s.now, s.ownRun, s.runActive, s.concurrent);
    if IngestOutcome(s.t, s.ownRun, s.runActive, s.concurrent) == Pending {
      assert token in q.burst && q.heard[token] == s.now;
      assert q.st.fireAt.value <= s.now + Seconds(s.t.debounceSeconds) ==> DueAfter(q.st, q.heard, token, b);
    } else {
      assert q.st.fireAt == p.st.fireAt && q.st.pendingSince == p.st.pendingSince && q.st.lastFiredAt == p.st.lastFiredAt;
      forall n | n in p.burst && DueAfter(p.st, p.heard, n, b) ensures n in q.burst && DueAfter(q.st, q.heard, n, b) {
        assert q.heard[n] == p.heard[n];
      }
    }
  }

  // The timer and what it is for are as they were, or there is none, or it was set for at once.
  ghost predicate TimerKeptOrNew(p: P.Protocol, q: P.Protocol, b: P.Bounds) {
    (SameTimer(p.st, q.st) && q.burst == p.burst && q.heard == p.heard) || q.st.fireAt.None? || AtOnceOrGap(q.st, b)
  }

  lemma NearKept(p: P.Protocol, q: P.Protocol, b: P.Bounds)
    requires TimerIsNear(p, b) && TimerKeptOrNew(p, q, b)
    ensures TimerIsNear(q, b)
  {
    if !AtOnceOrGap(q.st, b) && q.st.fireAt.Some? {
      var n :| n in p.burst && DueAfter(p.st, p.heard, n, b);
      assert n in q.burst && DueAfter(q.st, q.heard, n, b);
    }
  }

  lemma FinishedIsAtOnce(st: State, t: EventTrigger, now: Instant, b: P.Bounds)
    requires P.Within(t, b)
    ensures SameTimer(st, Finished(st, t, now)) || AtOnceOrGap(Finished(st, t, now), b)
    ensures st.queued ==> AtOnceOrGap(Finished(st, t, now), b)
    ensures SameTimer(st, Missed(st, t, now)) || AtOnceOrGap(Missed(st, t, now), b)
  {
  }

  lemma NearElse(p: P.Protocol, s: P.Step, b: P.Bounds)
    requires TimerIsNear(p, b) && !s.Ingest? && P.Enabled(p, s) && P.StepWithin(s, b)
    ensures TimerIsNear(P.Next(p, s), b)
  {
    ElseKeepsOrSets(p, s, b);
    hide TimerKeptOrNew, TimerIsNear, P.Next;
    NearKept(p, P.Next(p, s), b);
  }

  lemma ElseKeepsOrSets(p: P.Protocol, s: P.Step, b: P.Bounds)
    requires !s.Ingest? && P.Enabled(p, s) && P.StepWithin(s, b)
    ensures TimerKeptOrNew(p, P.Next(p, s), b)
  {
    if s.Release? || s.MissEvents? || s.Claim? { FinishedIsAtOnce(p.st, s.t, s.now, b); }
    if s.Requeue? { FinishedIsAtOnce(Requeued(p.st, s.t, p.flights[s.flight].fired), s.t, s.now, b); }
  }

  lemma LastNext(p: P.Protocol, s: P.Step, b: P.Bounds)
    requires Debounced(p, b) && P.Enabled(p, s)
    ensures var q := P.Next(p, s); |q.heard| == |q.log| && (NothingWaits(q) || exists m :: LastHeard(q, m))
  {
    var q := P.Next(p, s);
    if s.Ingest? {
      LastIngest(p, s, b);
    } else {
      StaysFrom(p, s);
      if NothingWaits(p) {
        assert NothingWaits(q);
      } else {
        var m :| LastHeard(p, m);
        assert LastHeard(q, m);
      }
    }
  }

  lemma LastIngest(p: P.Protocol, s: P.Step, b: P.Bounds)
    requires Debounced(p, b) && s.Ingest?
    ensures var q := P.Next(p, s); |q.heard| == |q.log| && (NothingWaits(q) || exists m :: LastHeard(q, m))
  {
    var q, token := P.Next(p, s), |p.log|;
    IngestCases(p.st, s.t, s.ev, s.now, s.ownRun, s.runActive, s.concurrent);
    assert forall n :: n in q.burst ==> n in p.burst || n == token;
    if !NothingWaits(p) {
      var m :| LastHeard(p, m);
      assert if s.ownRun then LastHeard(q, m) else LastHeard(q, token);
    } else if s.ownRun {
      assert NothingWaits(q);
    } else {
      assert LastHeard(q, token);
    }
  }

  // Apart from an ingest nothing comes to be pending or in flight that was neither, and lastEventAt stays.
  lemma StaysFrom(p: P.Protocol, s: P.Step)
    requires !s.Ingest? && P.Enabled(p, s)
    ensures var q := P.Next(p, s);
            && q.heard == p.heard && q.log == p.log && q.st.lastEventAt == p.st.lastEventAt
            && (forall n :: n in q.burst ==> n in p.burst || exists f :: f in p.flights && n in f.burst)
            && (forall f :: f in q.flights ==> f in p.flights || f.burst == p.burst)
  {
    match s
    case Start(i, _) => P.RemoveKeeps(p.flights, i);
    case Lose(i) => P.RemoveKeeps(p.flights, i);
    case Requeue(i, _, _, _) => P.RemoveKeeps(p.flights, i); assert p.flights[i] in p.flights;
    case _ =>
  }

  lemma DebouncedNext(p: P.Protocol, s: P.Step, b: P.Bounds)
    requires Debounced(p, b) && P.Enabled(p, s) && P.StepWithin(s, b)
    ensures Debounced(P.Next(p, s), b)
  {
    hide TimerIsNear, NothingWaits, LastHeard, P.Next, P.Enabled;
    if s.Ingest? { NearIngest(p, s, b); } else { NearElse(p, s, b); }
    LastNext(p, s, b);
  }

  lemma NothingHeard(b: P.Bounds)
    ensures Debounced(P.INITIAL, b)
  {
  }

  // Whatever the clocks say and whatever happens, a timer that was not set for at once and is not held back by the
  // gap is at most the longest debounce after one of the events now pending was heard.
  lemma {:induction false} TimersAreDebounced(states: seq<P.Protocol>, steps: seq<P.Step>, k: nat, b: P.Bounds)
    requires P.IsRun(states, steps) && k < |states|
    requires forall i :: 0 <= i < |steps| ==> P.StepWithin(steps[i], b)
    ensures Debounced(states[k], b)
  {
    hide Debounced, P.Next, P.Enabled, P.StepWithin;
    if k == 0 {
      NothingHeard(b);
    } else {
      TimersAreDebounced(states, steps, k - 1, b);
      assert states[k] == P.Next(states[k - 1], steps[k - 1]);
      DebouncedNext(states[k - 1], steps[k - 1], b);
    }
  }

  predicate Rising(times: seq<Instant>) { forall i, j :: 0 <= i <= j < |times| ==> times[i] <= times[j] }

  // In the row's own terms, when events are heard on a clock that does not go back.
  predicate NearLastEvent(st: State, b: P.Bounds) {
    st.fireAt.Some? ==> AtOnceOrGap(st, b) || (st.lastEventAt.Some? && st.fireAt.value <= st.lastEventAt.value + Seconds(b.maxDebounce))
  }

  lemma TimerIsNearLastEvent(p: P.Protocol, b: P.Bounds)
    requires Debounced(p, b) && Rising(p.heard)
    ensures NearLastEvent(p.st, b)
  {
    if p.st.fireAt.Some? && !AtOnceOrGap(p.st, b) {
      var n :| n in p.burst && DueAfter(p.st, p.heard, n, b);
      var m :| LastHeard(p, m);
      assert n <= m && p.heard[n] <= p.heard[m];
    }
  }

  // The same without naming the burst, for a store's row and the times its events were heard.
  ghost predicate NearSomeEvent(st: State, heard: seq<Instant>, b: P.Bounds) {
    st.fireAt.Some? ==> AtOnceOrGap(st, b) || exists n :: DueAfter(st, heard, n, b)
  }

  lemma RowIsDebounced(ps: seq<P.Protocol>, psteps: seq<P.Step>, k: nat, b: P.Bounds)
    requires P.IsRun(ps, psteps) && k < |ps| && forall i :: 0 <= i < |psteps| ==> P.StepWithin(psteps[i], b)
    ensures NearSomeEvent(ps[k].st, ps[k].heard, b)
    ensures Rising(ps[k].heard) ==> NearLastEvent(ps[k].st, b)
  {
    TimersAreDebounced(ps, psteps, k, b);
    if Rising(ps[k].heard) { TimerIsNearLastEvent(ps[k], b); }
  }
}
