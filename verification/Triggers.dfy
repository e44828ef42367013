// Event triggers: the debounce-and-queue rules over one state row (src/booth_pipeline/triggers.py).
// The row is a class whose methods assign its fields, as in the source; each method is proved against
// a function on row values, and the protocol modules reason about those functions.
module Triggers {
  import opened Basics

  // An instant in microseconds, the resolution of the source's datetime.
  type Instant = int

  function Seconds(n: int): Instant { n * 1_000_000 }

  const MAX_RUN_EVENTS: nat := 100

  datatype EventType = StorageCreated | ApiCommitted

  // What an envelope's publication time parses to: absent, not a time with an offset, or an instant.
  datatype Published = Absent | Unreadable | At(instant: Instant)

  datatype TriggerEvent = TriggerEvent(
    workspace: string, etype: EventType, publishedAt: Published, principal: string,
    backendId: string, path: string, size: Option<int>, via: string,
    apiSlug: string, dataset: string, table: string, operation: string, rows: Option<int>)

  datatype EventRecord =
    | StorageRecord(publishedAt: Published, principal: string, backendId: string, path: string, size: Option<int>, via: string)
    | ApiRecord(publishedAt: Published, principal: string, apiSlug: string, dataset: string, table: string, operation: string, rows: Option<int>)

  function Record(ev: TriggerEvent): EventRecord {
    match ev.etype
    case StorageCreated => StorageRecord(ev.publishedAt, ev.principal, ev.backendId, ev.path, ev.size, ev.via)
    case ApiCommitted => ApiRecord(ev.publishedAt, ev.principal, ev.apiSlug, ev.dataset, ev.table, ev.operation, ev.rows)
  }

  datatype EventMatch =
    | StorageMatch(backendId: string, prefix: string)
    | ApiMatch(slugs: seq<string>, slugPrefix: string)

  datatype WhenRunning = QueueOne | Skip

  datatype EventTrigger = EventTrigger(
    enabled: bool, matches: seq<EventMatch>, debounceSeconds: nat, maxWaitSeconds: nat,
    whenRunning: WhenRunning, minGapSeconds: nat)

  predicate MatchesOne(m: EventMatch, ev: TriggerEvent) {
    match m
    case StorageMatch(backendId, prefix) =>
      ev.etype == StorageCreated && backendId == ev.backendId && prefix <= ev.path
    case ApiMatch(slugs, slugPrefix) =>
      ev.etype == ApiCommitted && (ev.apiSlug in slugs || (slugPrefix != "" && slugPrefix <= ev.apiSlug))
  }

  predicate Matches(t: EventTrigger, ev: TriggerEvent) {
    exists i :: 0 <= i < |t.matches| && MatchesOne(t.matches[i], ev)
  }

  // The loop returns at the first match.
  method MatchesEvent(t: EventTrigger, ev: TriggerEvent) returns (r: bool)
    ensures r <==> Matches(t, ev)
  {
    for i := 0 to |t.matches|
      invariant forall k :: 0 <= k < i ==> !MatchesOne(t.matches[k], ev)
    {
      if MatchesOne(t.matches[i], ev) {
        return true;
      }
    }
    r := false;
  }

  // A trigger is not concerned with an event published before it was turned on.
  predicate Concerns(t: EventTrigger, since: Option<Instant>, ev: TriggerEvent) {
    Matches(t, ev) && (since.Some? && ev.publishedAt.At? ==> since.value <= ev.publishedAt.instant)
  }

  // The run a `pipeline:<workspace>:<runId>` principal names, if any.
  function OwnRunId(principal: string, workspace: string): Option<string> {
    var prefix := "pipeline:" + workspace + ":";
    if prefix < principal then Some(principal[|prefix|..]) else None
  }

  // A principal names a run of this workspace exactly when it is the prefix and a non-empty id.
  lemma OwnRunIdIff(principal: string, workspace: string, id: string)
    ensures OwnRunId(principal, workspace) == Some(id) <==> id != "" && principal == "pipeline:" + workspace + ":" + id
  {
    var prefix := "pipeline:" + workspace + ":";
    if prefix < principal { assert principal == prefix + principal[|prefix|..]; }
    if principal == prefix + id { assert (prefix + id)[|prefix|..] == id; }
  }

  // A row of event_trigger_state.
  datatype State = State(
    pendingSince: Option<Instant>, lastEventAt: Option<Instant>, fireAt: Option<Instant>, queued: bool,
    lastFiredAt: Option<Instant>, events: seq<EventRecord>, eventCount: nat, missedEvents: bool,
    ignoredOwnRuns: nat, skippedWhileRunning: nat, lastEvent: Option<EventRecord>, gapDetectedAt: Option<Instant>)

  const EMPTY := State(None, None, None, false, None, [], 0, false, 0, 0, None, None)

  // What a claimed fire hands to the run it starts.
  datatype Fired = Fired(events: seq<EventRecord>, count: nat, missedEvents: bool)

  datatype Outcome = Pending | Queued | OwnRun | Skipped

  // No sooner than the minimum gap after the last fire.
  function AfterGap(at: Instant, lastFiredAt: Option<Instant>, t: EventTrigger): Instant {
    if lastFiredAt.Some? then Max(at, lastFiredAt.value + Seconds(t.minGapSeconds)) else at
  }

  function FireAt(pendingSince: Instant, lastFiredAt: Option<Instant>, t: EventTrigger, now: Instant): Instant {
    AfterGap(Min(now + Seconds(t.debounceSeconds), pendingSince + Seconds(t.maxWaitSeconds)), lastFiredAt, t)
  }

  function Added(st: State, ev: TriggerEvent): State {
    st.(events := if |st.events| < MAX_RUN_EVENTS then st.events + [Record(ev)] else st.events,
        eventCount := st.eventCount + 1)
  }

  function IngestOutcome(t: EventTrigger, ownRun: bool, runActive: bool, concurrent: bool): Outcome {
    if ownRun then OwnRun
    else if runActive && !concurrent then (if t.whenRunning == Skip then Skipped else Queued)
    else Pending
  }

  function Ingested(st: State, t: EventTrigger, ev: TriggerEvent, now: Instant, outcome: Outcome): State {
    var seen := st.(lastEvent := Some(Record(ev)), lastEventAt := Some(now));
    match outcome
    case OwnRun => st.(ignoredOwnRuns := st.ignoredOwnRuns + 1)
    case Skipped => seen.(skippedWhileRunning := st.skippedWhileRunning + 1)
    case Queued => Added(seen, ev).(queued := true)
    case Pending =>
      var since := st.pendingSince.GetOr(now);
      Added(seen, ev).(queued := false, pendingSince := Some(since), fireAt := Some(FireAt(since, st.lastFiredAt, t, now)))
  }

  function Reset(st: State): State {
    st.(pendingSince := None, fireAt := None, queued := false, events := [], eventCount := 0, missedEvents := false)
  }

  // Whether a due trigger starts its run now.
  predicate StartsNow(runActive: bool, concurrent: bool) { !runActive || concurrent }

  function Due(st: State, t: EventTrigger, now: Instant, startsNow: bool): State {
    if startsNow then Reset(st).(lastFiredAt := Some(now))
    else if t.whenRunning == QueueOne then st.(pendingSince := None, fireAt := None, queued := true)
    else Reset(st).(queued := st.queued, skippedWhileRunning := st.skippedWhileRunning + st.eventCount)
  }

  function FiredBy(st: State): Fired { Fired(st.events, st.eventCount, st.missedEvents) }

  function Finished(st: State, t: EventTrigger, now: Instant): State {
    if !st.queued then st
    else st.(queued := false, pendingSince := Some(now), fireAt := Some(AfterGap(now, st.lastFiredAt, t)))
  }

  function Requeued(st: State, t: EventTrigger, fired: Fired): State {
    if t.whenRunning == Skip then st.(skippedWhileRunning := st.skippedWhileRunning + fired.count)
    else st.(events := Take(fired.events + st.events, MAX_RUN_EVENTS), eventCount := st.eventCount + fired.count,
             missedEvents := st.missedEvents || fired.missedEvents, queued := true, pendingSince := None, fireAt := None)
  }

  function Missed(st: State, t: EventTrigger, now: Instant): State {
    var seen := st.(missedEvents := true, gapDetectedAt := Some(now));
    if st.queued || st.fireAt.Some? then seen
    else seen.(pendingSince := Some(now), fireAt := Some(AfterGap(now, st.lastFiredAt, t)))
  }

  // ---- what the rules come to ----

  // What a run is told of an event: where it happened and who caused it.
  lemma RecordSays(ev: TriggerEvent)
    ensures ev.etype == StorageCreated ==>
              Record(ev) == StorageRecord(ev.publishedAt, ev.principal, ev.backendId, ev.path, ev.size, ev.via)
    ensures ev.etype == ApiCommitted ==>
              Record(ev) == ApiRecord(ev.publishedAt, ev.principal, ev.apiSlug, ev.dataset, ev.table, ev.operation, ev.rows)
  {
  }

  // A storage match covers the objects of its backend under its prefix; an API match the listed APIs and, if a slug
  // prefix is given, those that start with it.
  lemma MatchCovers(m: EventMatch, ev: TriggerEvent)
    ensures m.StorageMatch? ==>
              (MatchesOne(m, ev) <==> ev.etype == StorageCreated && ev.backendId == m.backendId && exists rest :: ev.path == m.prefix + rest)
    ensures m.ApiMatch? ==>
              var listed, prefixed := exists i :: 0 <= i < |m.slugs| && m.slugs[i] == ev.apiSlug, exists rest :: ev.apiSlug == m.slugPrefix + rest;
              (MatchesOne(m, ev) <==> ev.etype == ApiCommitted && (listed || (m.slugPrefix != "" && prefixed)))
  {
    if m.StorageMatch? && m.prefix <= ev.path { assert ev.path == m.prefix + ev.path[|m.prefix|..]; }
    if m.ApiMatch? && m.slugPrefix <= ev.apiSlug { assert ev.apiSlug == m.slugPrefix + ev.apiSlug[|m.slugPrefix|..]; }
  }

  // Of the events a match covers a trigger leaves out those known to be published before it was turned on.
  lemma ConcernsIff(t: EventTrigger, since: Option<Instant>, ev: TriggerEvent)
    ensures Concerns(t, since, ev) <==>
              (exists m :: m in t.matches && MatchesOne(m, ev)) && !(since.Some? && ev.publishedAt.At? && ev.publishedAt.instant < since.value)
  {
  }

  // A due row with nothing in the way fires with all it holds; behind a running run it becomes a follow-up with all it
  // holds, or its events are counted as skipped and it waits for nothing.
  lemma DueCases(st: State, t: EventTrigger, now: Instant, runActive: bool, concurrent: bool)
    ensures var after, fires := Due(st, t, now, StartsNow(runActive, concurrent)), !runActive || concurrent;
            && after.pendingSince.None? && after.fireAt.None? && after.ignoredOwnRuns == st.ignoredOwnRuns && after.lastEventAt == st.lastEventAt
            && (fires ==> !after.queued && after.events == [] && after.eventCount == 0 && !after.missedEvents &&
                          after.lastFiredAt == Some(now) && after.skippedWhileRunning == st.skippedWhileRunning)
            && (!fires ==> after.lastFiredAt == st.lastFiredAt)
            && (!fires && t.whenRunning == QueueOne ==> after.queued && SameBurst(st, after) && after.skippedWhileRunning == st.skippedWhileRunning)
            && (!fires && t.whenRunning == Skip ==>
                  after.queued == st.queued && after.events == [] && after.eventCount == 0 && !after.missedEvents &&
                  after.skippedWhileRunning == st.skippedWhileRunning + st.eventCount)
    ensures FiredBy(st).events == st.events && FiredBy(st).count == st.eventCount && FiredBy(st).missedEvents == st.missedEvents
  {
  }

  // The timer for now, or for the end of the gap if that is later.
  predicate SetForNow(after: State, t: EventTrigger, now: Instant) {
    && after.pendingSince == Some(now) && after.fireAt.Some? && now <= after.fireAt.value
    && (after.lastFiredAt.Some? ==> after.lastFiredAt.value + Seconds(t.minGapSeconds) <= after.fireAt.value)
    && (after.fireAt.value == now || after.lastFiredAt == Some(after.fireAt.value - Seconds(t.minGapSeconds)))
  }

  // The end of a run releases a follow-up with all it holds; an outage is noted, and sets the timer unless one is set
  // or a follow-up is owed.
  lemma ReleaseAndOutageCases(st: State, t: EventTrigger, now: Instant)
    ensures var after := Finished(st, t, now);
            (if st.queued then !after.queued && SetForNow(after, t, now) && SameBurst(st, after) && after.lastFiredAt == st.lastFiredAt else after == st)
    ensures var after := Missed(st, t, now);
            && after.missedEvents && after.gapDetectedAt == Some(now) && after.queued == st.queued && after.lastFiredAt == st.lastFiredAt
            && after.events == st.events && after.eventCount == st.eventCount
            && (if st.queued || st.fireAt.Some? then SameTimer(st, after) else SetForNow(after, t, now))
  {
  }

  // The timer after an event that waits: no sooner than the debounce after the event or the longest wait after the
  // burst began, no sooner than the gap after the last fire, and no later than these make it.
  ghost predicate WaitsFor(before: State, after: State, t: EventTrigger, now: Instant) {
    && after.pendingSince.Some? && after.fireAt.Some? && after.lastFiredAt == before.lastFiredAt
    && after.pendingSince.value == (if before.pendingSince.Some? then before.pendingSince.value else now)
    && var (fire, since) := (after.fireAt.value, after.pendingSince.value);
       var quiet, longest := now + Seconds(t.debounceSeconds), since + Seconds(t.maxWaitSeconds);
       && (quiet <= fire || longest <= fire)
       && (after.lastFiredAt.Some? ==> after.lastFiredAt.value + Seconds(t.minGapSeconds) <= fire)
       && ((fire <= quiet && fire <= longest) || after.lastFiredAt == Some(fire - Seconds(t.minGapSeconds)))
  }

  // An event joins a burst: it is counted, and recorded while there is room.
  predicate Joins(before: State, after: State, ev: TriggerEvent) {
    && after.eventCount == before.eventCount + 1
    && (if |before.events| < MAX_RUN_EVENTS then |after.events| == |before.events| + 1 && before.events <= after.events &&
                                                  after.events[|before.events|] == Record(ev)
        else after.events == before.events)
  }

  predicate SameBurst(a: State, b: State) { a.events == b.events && a.eventCount == b.eventCount && a.missedEvents == b.missedEvents }

  predicate SameTimer(a: State, b: State) { a.pendingSince == b.pendingSince && a.fireAt == b.fireAt && a.lastFiredAt == b.lastFiredAt }

  // What one event does: an own run's leaves everything but its counter alone; with nothing in the way it joins the
  // burst and sets the timer; behind a running run it is skipped, or joins the burst and is owed when that run ends.
  lemma IngestCases(st: State, t: EventTrigger, ev: TriggerEvent, now: Instant, ownRun: bool, runActive: bool, concurrent: bool)
    ensures var after := Ingested(st, t, ev, now, IngestOutcome(t, ownRun, runActive, concurrent));
            && (ownRun ==> after == st.(ignoredOwnRuns := st.ignoredOwnRuns + 1))
            && (!ownRun ==> after.lastEventAt == Some(now) && after.lastEvent == Some(Record(ev)) && after.ignoredOwnRuns == st.ignoredOwnRuns)
            && (!ownRun && (!runActive || concurrent) ==>
                  WaitsFor(st, after, t, now) && Joins(st, after, ev) && !after.queued && after.skippedWhileRunning == st.skippedWhileRunning)
            && (!ownRun && runActive && !concurrent ==> SameTimer(st, after))
            && (!ownRun && runActive && !concurrent && t.whenRunning == QueueOne ==>
                  after.queued && Joins(st, after, ev) && after.skippedWhileRunning == st.skippedWhileRunning)
            && (!ownRun && runActive && !concurrent && t.whenRunning == Skip ==>
                  SameBurst(st, after) && after.queued == st.queued && after.skippedWhileRunning == st.skippedWhileRunning + 1)
  {
  }

  // The row while a store operation holds it: the methods of triggers.py, in place.
  class EventTriggerState {
    var pendingSince: Option<Instant>
    var lastEventAt: Option<Instant>
    var fireAt: Option<Instant>
    var queued: bool
    var lastFiredAt: Option<Instant>
    var events: seq<EventRecord>
    var eventCount: nat
    var missedEvents: bool
    var ignoredOwnRuns: nat
    var skippedWhileRunning: nat
    var lastEvent: Option<EventRecord>
    var gapDetectedAt: Option<Instant>

    function Row(): State
      reads this
    {
      State(pendingSince, lastEventAt, fireAt, queued, lastFiredAt, events, eventCount, missedEvents,
            ignoredOwnRuns, skippedWhileRunning, lastEvent, gapDetectedAt)
    }

    constructor (row: State)
      ensures Row() == row
    {
      pendingSince, lastEventAt, fireAt, queued := row.pendingSince, row.lastEventAt, row.fireAt, row.queued;
      lastFiredAt, events, eventCount := row.lastFiredAt, row.events, row.eventCount;
      missedEvents, ignoredOwnRuns := row.missedEvents, row.ignoredOwnRuns;
      skippedWhileRunning, lastEvent, gapDetectedAt := row.skippedWhileRunning, row.lastEvent, row.gapDetectedAt;
    }

    method Add(ev: TriggerEvent)
      modifies this
      ensures Row() == Added(old(Row()), ev)
    {
      if |events| < MAX_RUN_EVENTS {
        events := events + [Record(ev)];
      }
      eventCount := eventCount + 1;
    }

    method Ingest(t: EventTrigger, ev: TriggerEvent, now: Instant, ownRun: bool, runActive: bool, concurrent: bool)
      returns (outcome: Outcome)
      modifies this
      ensures outcome == IngestOutcome(t, ownRun, runActive, concurrent)
      ensures Row() == Ingested(old(Row()), t, ev, now, outcome)
    {
      if ownRun {
        ignoredOwnRuns := ignoredOwnRuns + 1;
        return OwnRun;
      }
      lastEvent, lastEventAt := Some(Record(ev)), Some(now);
      if runActive && !concurrent {
        if t.whenRunning == Skip {
          skippedWhileRunning := skippedWhileRunning + 1;
          return Skipped;
        }
        Add(ev);
        queued := true;
        return Queued;
      }
      Add(ev);
      queued := false;
      pendingSince := Some(pendingSince.GetOr(now));
      fireAt := Some(FireAt(pendingSince.value, lastFiredAt, t, now));
      return Pending;
    }

    method OnDue(t: EventTrigger, now: Instant, runActive: bool, concurrent: bool) returns (fired: Option<Fired>)
      modifies this
      ensures Row() == Due(old(Row()), t, now, StartsNow(runActive, concurrent))
      ensures fired == if StartsNow(runActive, concurrent) then Some(FiredBy(old(Row()))) else None
    {
      if runActive && !concurrent {
        pendingSince, fireAt := None, None;
        if t.whenRunning == QueueOne {
          queued := true;
        } else {
          skippedWhileRunning := skippedWhileRunning + eventCount;
          events, eventCount, missedEvents := [], 0, false;
        }
        return None;
      }
      fired := Some(Fired(events, eventCount, missedEvents));
      pendingSince, fireAt, queued := None, None, false;
      events, eventCount, missedEvents := [], 0, false;
      lastFiredAt := Some(now);
    }

    method OnRunFinished(t: EventTrigger, now: Instant)
      modifies this
      ensures Row() == Finished(old(Row()), t, now)
    {
      if !queued {
        return;
      }
      queued := false;
      pendingSince := Some(now);
      fireAt := Some(if lastFiredAt.None? then now else Max(now, lastFiredAt.value + Seconds(t.minGapSeconds)));
    }

    method Requeue(t: EventTrigger, fired: Fired)
      modifies this
      ensures Row() == Requeued(old(Row()), t, fired)
    {
      if t.whenRunning == Skip {
        skippedWhileRunning := skippedWhileRunning + fired.count;
        return;
      }
      events := Take(fired.events + events, MAX_RUN_EVENTS);
      eventCount := eventCount + fired.count;
      missedEvents := missedEvents || fired.missedEvents;
      queued := true;
      pendingSince, fireAt := None, None;
    }

    method OnMissedEvents(t: EventTrigger, now: Instant)
      modifies this
      ensures Row() == Missed(old(Row()), t, now)
    {
      missedEvents := true;
      gapDetectedAt := Some(now);
      if queued || fireAt.Some? {
        return;
      }
      pendingSince := Some(now);
      fireAt := Some(if lastFiredAt.None? then now else Max(now, lastFiredAt.value + Seconds(t.minGapSeconds)));
    }

    method ResetPending()
      modifies this
      ensures Row() == Reset(old(Row()))
    {
      pendingSince, fireAt, queued := None, None, false;
      events, eventCount, missedEvents := [], 0, false;
    }
  }
}
