// One pass of the scheduler (src/booth_pipeline/scheduler.py): claims, the run starts they lead to
// (src/booth_pipeline/service.py), and the sweep of runs whose worker is gone (src/booth_pipeline/runs.py).
module Scheduler {
  import opened Basics
  import opened Triggers
  import opened AtomicStore
  import opened MemoryStore
  import Schedule

  const CLAIM_BATCH: nat := 100

  // A run as start_run creates it.
  function QueuedRun(pid: string, now: Instant, fired: Option<Fired>, slot: Option<Instant>): Run {
    Run(pid, RunQueued, now, None, None, None, None, None, fired, slot)
  }

  // The record of a slot that found the pipeline busy.
  function SkippedRun(pid: string, now: Instant, slot: Option<Instant>): Run {
    Run(pid, RunSkipped, now, Some(now), Some(now), Some("previous run still active"), None, None, None, slot)
  }

  function SlotOf(p: Schedule.Scheduled, now: Instant): Option<Instant>
    requires p.schedule.Some? ==> Schedule.WellFormed(p.schedule.value)
  {
    if p.nextRunAt.Some? && p.schedule.Some? then Some(Schedule.LatestSlot(p.schedule.value, p.nextRunAt.value, now)) else p.nextRunAt
  }

  // The slot recorded with a start: of an interval the latest whole one due; of a cron trigger the latest one due,
  // or, when the clock reads a fraction of a second before one, that one.
  lemma StartIsForLatestSlot(p: Schedule.Scheduled, now: Instant, other: Instant)
    requires Schedule.IsDue(p, now) && Schedule.WellFormed(p.schedule.value)
    requires Schedule.IsSlot(p.schedule.value, p.nextRunAt.value, p.nextRunAt.value)
    ensures SlotOf(p, now).Some?
    ensures var (t, slot, due) := (p.schedule.value, SlotOf(p, now).value, p.nextRunAt.value);
            && Schedule.IsSlot(t, due, slot) && due <= slot < now + Schedule.SECOND
            && (Schedule.IsSlot(t, due, other) && due <= other <= now ==> other <= slot)
            && (t.Interval? ==> slot <= now)
  {
    var t, due := p.schedule.value, p.nextRunAt.value;
    match t
    case Interval(seconds) =>
      Schedule.IntervalSlotIsLatest(seconds, due, now, other);
      Schedule.IntervalSlotIsLatest(seconds, due, now, due);
    case Cron(slots) =>
      if due < now { CronStart(slots, due, now, other); }
  }

  lemma CronStart(slots: int -> Instant, due: Instant, now: Instant, other: Instant)
    requires Schedule.WellFormed(Schedule.Cron(slots)) && due < now && Schedule.IsSlot(Schedule.Cron(slots), due, due)
    ensures var slot := Schedule.LatestSlot(Schedule.Cron(slots), due, now);
            && Schedule.IsSlot(Schedule.Cron(slots), due, slot) && due <= slot < now + Schedule.SECOND
            && (Schedule.IsSlot(Schedule.Cron(slots), due, other) && due <= other <= now ==> other <= slot)
  {
    var t, n := Schedule.Cron(slots), Schedule.IndexAfter(slots, now);
    Schedule.CronSlotIsDueIff(slots, due, now);
    Schedule.SlotAheadIff(slots, now);
    if Schedule.IsSlot(t, due, other) && other <= now {
      var i :| slots(i) == other;
      if i < n { Schedule.SlotsIncrease(slots, i, n - 1); } else { Schedule.SlotsIncrease(slots, n, i); }
    }
    hide Schedule.WellFormed, Schedule.LatestSlot, Schedule.IndexAfter;
  }

  predicate Busy(runs: map<string, Run>, pid: string, concurrent: bool) { !concurrent && Active(RunsOf(runs, pid)) }

  // A claimed slot leaves exactly one run for it, queued or skipped, unless the pipeline has no version to run.
  // `ids` are the two fresh ids a start may use.
  method StartScheduled(store: MemoryStore, pid: string, p: Schedule.Scheduled, concurrent: bool, hasVersion: bool, now: Instant,
                        ids: (string, string))
    returns (started: Option<string>)
    requires p.schedule.Some? ==> Schedule.WellFormed(p.schedule.value)
    requires ids.0 != ids.1 && ids.0 !in store.runs && ids.1 !in store.runs
    modifies store`runs
    ensures store.runs ==
            if !hasVersion then old(store.runs)
            else if Busy(old(store.runs), pid, concurrent) then old(store.runs)[ids.1 := SkippedRun(pid, now, SlotOf(p, now))]
            else old(store.runs)[ids.0 := QueuedRun(pid, now, None, SlotOf(p, now))]
    ensures started == if hasVersion && !Busy(old(store.runs), pid, concurrent) then Some(ids.0) else None
  {
    if !hasVersion {
      return None;
    }
    var ok := store.CreateRun(ids.0, QueuedRun(pid, now, None, SlotOf(p, now)), !concurrent);
    if ok {
      return Some(ids.0);
    }
    ok := store.CreateRun(ids.1, SkippedRun(pid, now, SlotOf(p, now)), false);
    started := None;
  }

  // A claimed fire is carried by a new run, or put back when the pipeline turns out busy; without a version to run
  // it is gone.
  method StartEventFired(store: MemoryStore, pid: string, fired: Fired, concurrent: bool, hasVersion: bool, now: Instant, id: string)
    returns (started: Option<string>)
    requires Valid(store.Contents()) && id !in store.runs
    modifies store
    ensures Valid(store.Contents())
    ensures !hasVersion ==> store.Contents() == old(store.Contents()) && started.None?
    ensures hasVersion && Busy(old(store.runs), pid, concurrent) ==>
              store.Contents() == RequeueDb(old(store.Contents()), pid, fired, now) && started.None?
    ensures hasVersion && !Busy(old(store.runs), pid, concurrent) ==>
              && started == Some(id)
              && store.Contents() == old(store.Contents()).(runs := old(store.runs)[id := QueuedRun(pid, now, Some(fired), None)])
  {
    if !hasVersion {
      return None;
    }
    var ok := store.CreateRun(id, QueuedRun(pid, now, Some(fired), None), !concurrent);
    if ok {
      return Some(id);
    }
    store.RequeueEventTrigger(pid, fired, now);
    started := None;
  }

  // ---- the event part of a tick ----

  function Concurrent(db: Db, pid: string): bool { pid in db.pipelines && db.pipelines[pid].cfg.concurrent }

  lemma ConcurrentIs(a: Db, b: Db, pid: string)
    requires a.pipelines == b.pipelines
    ensures Concurrent(a, pid) == Concurrent(b, pid)
  {
  }

  // A batch's fires are each another pipeline's, and none of these is busy.
  ghost predicate Startable(db: Db, fires: seq<(string, Fired)>) {
    && (forall i, j :: 0 <= i < j < |fires| ==> fires[i].0 != fires[j].0)
    && (forall i :: 0 <= i < |fires| ==> !Busy(db.runs, fires[i].0, Concurrent(db, fires[i].0)))
  }

  lemma {:induction false} FiresAreStartable(db: Db, now: Instant, picked: seq<string>)
    requires NoDup(picked) && forall pid :: pid in picked ==> pid in db.pipelines
    ensures Startable(db, FiresDb(db, now, picked))
    ensures forall i :: 0 <= i < |FiresDb(db, now, picked)| ==> FiresDb(db, now, picked)[i].0 in picked
  {
    if picked != [] {
      var n := |picked| - 1;
      FiresAreStartable(db, now, picked[..n]);
      var before := FiresDb(db, now, picked[..n]);
      forall i | 0 <= i < |before| ensures before[i].0 != picked[n] && before[i].0 in picked {
        var j :| 0 <= j < n && picked[..n][j] == before[i].0;
      }
      if ClaimFire(PipeOf(db, picked[n]), now).Some? { OneFireIsStartable(db, now, picked[n]); }
      hide ClaimFire, Busy;
    }
  }

  lemma OneFireIsStartable(db: Db, now: Instant, pid: string)
    requires pid in db.pipelines && ClaimFire(PipeOf(db, pid), now).Some?
    ensures !Busy(db.runs, pid, Concurrent(db, pid))
  {
  }

  // Starts have been made for the first i fires: each is a queued run that carries its fire, and no other
  // pipeline's runs have changed.
  ghost predicate StartedFirst(db: Db, runs: map<string, Run>, fires: seq<(string, Fired)>, i: nat, versioned: set<string>,
                               ids: nat -> string, now: Instant)
    requires i <= |fires|
  {
    && (forall k :: 0 <= k < i && fires[k].0 in versioned ==>
          ids(k) in runs && runs[ids(k)] == QueuedRun(fires[k].0, now, Some(fires[k].1), None))
    && (forall id :: id in db.runs ==> id in runs && runs[id] == db.runs[id])
    && (forall id :: id in runs && id !in db.runs ==> exists k :: 0 <= k < i && fires[k].0 in versioned && ids(k) == id)
  }

  function StartedIds(fires: seq<(string, Fired)>, i: nat, versioned: set<string>, ids: nat -> string): seq<string>
    requires i <= |fires|
  {
    if i == 0 then [] else StartedIds(fires, i - 1, versioned, ids) + if fires[i - 1].0 in versioned then [ids(i - 1)] else []
  }

  ghost predicate Fresh(db: Db, ids: nat -> string, n: nat) {
    && (forall k :: 0 <= k < n ==> ids(k) !in db.runs)
    && (forall j, k :: 0 <= j < k < n ==> ids(j) != ids(k))
  }

  lemma StillNotBusy(db: Db, runs: map<string, Run>, fires: seq<(string, Fired)>, i: nat, versioned: set<string>, ids: nat -> string, now: Instant)
    requires i < |fires| && Startable(db, fires) && StartedFirst(db, runs, fires, i, versioned, ids, now) && Fresh(db, ids, |fires|)
    ensures !Busy(runs, fires[i].0, Concurrent(db, fires[i].0)) && ids(i) !in runs
  {
    var pid := fires[i].0;
    assert forall k :: 0 <= k < i && fires[k].0 in versioned ==> runs[ids(k)].pipelineId == fires[k].0 != pid;
    assert forall id :: id in RunsOf(runs, pid) ==> id in RunsOf(db.runs, pid) && RunsOf(db.runs, pid)[id] == runs[id];
  }

  lemma StartedNext(db: Db, runs: map<string, Run>, fires: seq<(string, Fired)>, i: nat, versioned: set<string>, ids: nat -> string, now: Instant)
    requires i < |fires| && StartedFirst(db, runs, fires, i, versioned, ids, now) && Fresh(db, ids, |fires|) && ids(i) !in runs
    ensures var next := if fires[i].0 in versioned then runs[ids(i) := QueuedRun(fires[i].0, now, Some(fires[i].1), None)] else runs;
            StartedFirst(db, next, fires, i + 1, versioned, ids, now)
  {
  }

  // Claim and start with no other actor in between: every claimed fire of a pipeline with a version to run becomes
  // a run that carries it, in the batch's order, and none is put back.
  method TickEvents(store: MemoryStore, now: Instant, versioned: set<string>, ids: nat -> string)
    returns (started: seq<string>, ghost fires: seq<(string, Fired)>, ghost picked: seq<string>)
    requires Valid(store.Contents()) && Fresh(store.Contents(), ids, CLAIM_BATCH)
    modifies store
    ensures Valid(store.Contents()) && IsBatch(old(store.Contents()), now, CLAIM_BATCH, picked)
    ensures forall pid :: pid in picked ==> pid in old(store.pipelines)
    ensures fires == FiresDb(old(store.Contents()), now, picked) && |fires| <= CLAIM_BATCH
    ensures store.Contents() == ClaimDb(old(store.Contents()), now, picked).(runs := store.runs)
    ensures StartedFirst(old(store.Contents()), store.runs, fires, |fires|, versioned, ids, now)
    ensures started == StartedIds(fires, |fires|, versioned, ids)
  {
    ghost var db := store.Contents();
    var claimed;
    claimed, picked := store.ClaimDueEventTriggers(now, CLAIM_BATCH);
    fires := claimed;
    PickedIsShort(db, now, CLAIM_BATCH, picked);
    FiresAreStartable(db, now, picked);
    FiresAreFew(db, now, picked);
    started := StartEach(store, db, claimed, now, versioned, ids);
  }

  // The starts of a batch, `db` being the store before the claim.
  method StartEach(store: MemoryStore, ghost db: Db, claimed: seq<(string, Fired)>, now: Instant, versioned: set<string>, ids: nat -> string)
    returns (started: seq<string>)
    requires Valid(store.Contents()) && store.runs == db.runs && store.pipelines == db.pipelines
    requires Startable(db, claimed) && Fresh(db, ids, |claimed|)
    modifies store
    ensures Valid(store.Contents()) && store.Contents() == old(store.Contents()).(runs := store.runs)
    ensures StartedFirst(db, store.runs, claimed, |claimed|, versioned, ids, now)
    ensures started == StartedIds(claimed, |claimed|, versioned, ids)
  {
    hide Startable, Fresh, RequeueDb, Busy, Valid, QueuedRun, Concurrent;
    started := [];
    ghost var after := store.Contents();
    for i := 0 to |claimed|
      invariant Valid(store.Contents()) && store.Contents() == after.(runs := store.runs)
      invariant StartedFirst(db, store.runs, claimed, i, versioned, ids, now)
      invariant started == StartedIds(claimed, i, versioned, ids)
    {
      hide StartedFirst;
      var (pid, fired) := claimed[i];
      StillNotBusy(db, store.runs, claimed, i, versioned, ids, now);
      StartedNext(db, store.runs, claimed, i, versioned, ids, now);
      var concurrent := Concurrent(store.Contents(), pid);
      ConcurrentIs(store.Contents(), db, pid);
      var id := StartEventFired(store, pid, fired, concurrent, pid in versioned, now, ids(i));
      if id.Some? {
        started := started + [id.value];
      }
    }
  }

  lemma PickedIsShort(db: Db, now: Instant, limit: nat, picked: seq<string>)
    requires IsBatch(db, now, limit, picked)
    ensures |picked| <= limit && NoDup(picked)
  {
  }

  lemma {:induction false} FiresAreFew(db: Db, now: Instant, picked: seq<string>)
    requires forall pid :: pid in picked ==> pid in db.pipelines
    ensures |FiresDb(db, now, picked)| <= |picked|
  {
    if picked != [] {
      FiresAreFew(db, now, picked[..|picked| - 1]);
      hide ClaimFire;
    }
  }

  // ---- the schedule part of a tick ----

  ghost predicate FreshPairs(runs: map<string, Run>, ids: nat -> (string, string), n: nat) {
    && (forall k :: 0 <= k < n ==> ids(k).0 !in runs && ids(k).1 !in runs && ids(k).0 != ids(k).1)
    && (forall j, k :: 0 <= j < k < n ==> {ids(j).0, ids(j).1} !! {ids(k).0, ids(k).1})
  }

  // The one run a claimed slot leaves: queued, or skipped when the pipeline was busy.
  function SlotRun(busy: bool, pid: string, now: Instant, slot: Option<Instant>): Run {
    if busy then SkippedRun(pid, now, slot) else QueuedRun(pid, now, None, slot)
  }

  function SlotId(busy: bool, ids: (string, string)): string { if busy then ids.1 else ids.0 }

  // The first i claimed slots have been dealt with: each versioned pipeline has exactly one new run, for its slot.
  ghost predicate SlotsRecorded(db: Db, runs: map<string, Run>, batch: seq<string>, slots: seq<Option<Instant>>, i: nat,
                                versioned: set<string>, ids: nat -> (string, string), now: Instant)
    requires i <= |batch| == |slots|
  {
    && (forall k :: 0 <= k < i && batch[k] in versioned ==>
          var busy := Busy(db.runs, batch[k], Concurrent(db, batch[k]));
          SlotId(busy, ids(k)) in runs && runs[SlotId(busy, ids(k))] == SlotRun(busy, batch[k], now, slots[k]))
    && (forall id :: id in db.runs ==> id in runs && runs[id] == db.runs[id])
    && (forall id :: id in runs && id !in db.runs ==>
          exists k :: 0 <= k < i && batch[k] in versioned && id == SlotId(Busy(db.runs, batch[k], Concurrent(db, batch[k])), ids(k)))
  }

  lemma BusyAsBefore(db: Db, runs: map<string, Run>, batch: seq<string>, slots: seq<Option<Instant>>, i: nat,
                     versioned: set<string>, ids: nat -> (string, string), now: Instant)
    requires i < |batch| == |slots| && NoDup(batch) && FreshPairs(db.runs, ids, |batch|)
    requires SlotsRecorded(db, runs, batch, slots, i, versioned, ids, now)
    ensures Busy(runs, batch[i], Concurrent(db, batch[i])) == Busy(db.runs, batch[i], Concurrent(db, batch[i]))
    ensures ids(i).0 !in runs && ids(i).1 !in runs && ids(i).0 != ids(i).1
  {
    var pid := batch[i];
    hide Concurrent;
    assert forall id :: id in runs && id !in db.runs ==> runs[id].pipelineId != pid;
    assert RunsOf(runs, pid) == RunsOf(db.runs, pid);
  }

  lemma SlotsRecordedNext(db: Db, runs: map<string, Run>, batch: seq<string>, slots: seq<Option<Instant>>, i: nat,
                          versioned: set<string>, ids: nat -> (string, string), now: Instant)
    requires i < |batch| == |slots| && SlotsRecorded(db, runs, batch, slots, i, versioned, ids, now)
    requires ids(i).0 !in runs && ids(i).1 !in runs
    ensures var busy := Busy(db.runs, batch[i], Concurrent(db, batch[i]));
            var next := if batch[i] in versioned then runs[SlotId(busy, ids(i)) := SlotRun(busy, batch[i], now, slots[i])] else runs;
            SlotsRecorded(db, next, batch, slots, i + 1, versioned, ids, now)
  {
    hide Busy, Concurrent, SlotRun;
  }

  // The runs started for the first i claimed slots: one for each versioned pipeline that was not busy.
  function SlotStarts(db: Db, batch: seq<string>, i: nat, versioned: set<string>, ids: nat -> (string, string)): seq<string>
    requires i <= |batch|
  {
    if i == 0 then []
    else
      var pid := batch[i - 1];
      SlotStarts(db, batch, i - 1, versioned, ids) +
      if pid in versioned && !Busy(db.runs, pid, Concurrent(db, pid)) then [ids(i - 1).0] else []
  }

  lemma SlotStartsNext(db: Db, batch: seq<string>, i: nat, versioned: set<string>, ids: nat -> (string, string))
    requires i < |batch|
    ensures SlotStarts(db, batch, i + 1, versioned, ids) ==
            SlotStarts(db, batch, i, versioned, ids) +
            if batch[i] in versioned && !Busy(db.runs, batch[i], Concurrent(db, batch[i])) then [ids(i).0] else []
  {
    hide Busy, Concurrent;
  }

  // Every claimed slot of a pipeline with a version to run leaves exactly one run for it, with the slot it is for,
  // and the claim has moved the pipeline on. The runs that were not skipped are the ones reported.
  method TickSchedules(schedules: Schedule.ScheduleStore, store: MemoryStore, now: Instant, versioned: set<string>,
                       ids: nat -> (string, string))
    returns (started: seq<string>, ghost batch: seq<string>, ghost slots: seq<Option<Instant>>)
    requires Schedule.AllWellFormed(schedules.pipelines) && FreshPairs(store.runs, ids, CLAIM_BATCH)
    modifies schedules, store`runs
    ensures Schedule.IsBatch(old(schedules.pipelines), now, CLAIM_BATCH, batch)
    ensures |slots| == |batch| && forall k :: 0 <= k < |batch| ==>
              && batch[k] in old(schedules.pipelines)
              && Schedule.IsDue(old(schedules.pipelines)[batch[k]], now)
              && slots[k] == SlotOf(old(schedules.pipelines)[batch[k]], now)
    ensures forall pid :: pid in batch ==> pid in schedules.pipelines && !Schedule.IsDue(schedules.pipelines[pid], now)
    ensures SlotsRecorded(old(store.Contents()), store.runs, batch, slots, |batch|, versioned, ids, now)
    ensures |batch| <= CLAIM_BATCH && started == SlotStarts(old(store.Contents()), batch, |batch|, versioned, ids)
  {
    ghost var was := schedules.pipelines;
    var claims;
    claims, batch := schedules.ClaimDuePipelines(now, CLAIM_BATCH);
    BatchIsShort(was, now, CLAIM_BATCH, batch);
    assert ClaimsFor(claims, batch);
    slots := SlotsOf(claims, now);
    started := RecordEach(store, store.Contents(), claims, batch, slots, now, versioned, ids);
  }

  // Well-formed claims, one per pipeline of the batch.
  ghost predicate ClaimsFor(claims: seq<(string, Schedule.Scheduled)>, batch: seq<string>) {
    && |claims| == |batch| && NoDup(batch)
    && (forall k :: 0 <= k < |batch| ==> claims[k].0 == batch[k])
    && (forall k :: 0 <= k < |claims| && claims[k].1.schedule.Some? ==> Schedule.WellFormed(claims[k].1.schedule.value))
  }

  ghost function SlotsOf(claims: seq<(string, Schedule.Scheduled)>, now: Instant): (slots: seq<Option<Instant>>)
    requires forall k :: 0 <= k < |claims| && claims[k].1.schedule.Some? ==> Schedule.WellFormed(claims[k].1.schedule.value)
    ensures |slots| == |claims| && forall k :: 0 <= k < |slots| ==> slots[k] == SlotOf(claims[k].1, now)
  {
    seq(|claims|, k requires 0 <= k < |claims| => SlotOf(claims[k].1, now))
  }

  method RecordEach(store: MemoryStore, ghost db: Db, claims: seq<(string, Schedule.Scheduled)>, ghost batch: seq<string>,
                    ghost slots: seq<Option<Instant>>, now: Instant, versioned: set<string>, ids: nat -> (string, string))
    returns (started: seq<string>)
    requires store.Contents() == db && ClaimsFor(claims, batch) && slots == SlotsOf(claims, now) && FreshPairs(db.runs, ids, |batch|)
    modifies store`runs
    ensures SlotsRecorded(db, store.runs, batch, slots, |batch|, versioned, ids, now)
    ensures started == SlotStarts(db, batch, |batch|, versioned, ids)
  {
    hide SlotsRecorded, FreshPairs, Busy, Concurrent, SlotOf, SlotStarts, NoDup, Schedule.WellFormed;
    NoSlotYet(db, batch, slots, versioned, ids, now);
    started := [];
    for i := 0 to |claims|
      invariant store.Contents() == db.(runs := store.runs)
      invariant SlotsRecorded(db, store.runs, batch, slots, i, versioned, ids, now)
      invariant started == SlotStarts(db, batch, i, versioned, ids)
    {
      SlotStartsNext(db, batch, i, versioned, ids);
      var (pid, p) := claims[i];
      var run := RecordOne(store, db, p, batch, slots, i, pid, now, versioned, ids);
      if run.Some? {
        started := started + [run.value];
      }
    }
  }

  lemma NoSlotYet(db: Db, batch: seq<string>, slots: seq<Option<Instant>>, versioned: set<string>, ids: nat -> (string, string), now: Instant)
    requires |batch| == |slots|
    ensures SlotsRecorded(db, db.runs, batch, slots, 0, versioned, ids, now) && SlotStarts(db, batch, 0, versioned, ids) == []
  {
  }

  // Slot i of a batch, those before it having been dealt with.
  method RecordOne(store: MemoryStore, ghost db: Db, p: Schedule.Scheduled, ghost batch: seq<string>, ghost slots: seq<Option<Instant>>,
                   i: nat, pid: string, now: Instant, versioned: set<string>, ids: nat -> (string, string))
    returns (run: Option<string>)
    requires i < |batch| == |slots| && batch[i] == pid && (p.schedule.Some? ==> Schedule.WellFormed(p.schedule.value)) && slots[i] == SlotOf(p, now)
    requires NoDup(batch) && FreshPairs(db.runs, ids, |batch|) && store.Contents() == db.(runs := store.runs)
    requires SlotsRecorded(db, store.runs, batch, slots, i, versioned, ids, now)
    modifies store`runs
    ensures SlotsRecorded(db, store.runs, batch, slots, i + 1, versioned, ids, now)
    ensures run == if pid in versioned && !Busy(db.runs, pid, Concurrent(db, pid)) then Some(ids(i).0) else None
  {
    hide SlotsRecorded, FreshPairs, Busy, Concurrent, SlotOf;
    BusyAsBefore(db, store.runs, batch, slots, i, versioned, ids, now);
    SlotsRecordedNext(db, store.runs, batch, slots, i, versioned, ids, now);
    ConcurrentIs(store.Contents(), db, pid);
    var concurrent := Concurrent(store.Contents(), pid);
    run := StartScheduled(store, pid, p, concurrent, pid in versioned, now, ids(i));
  }

  lemma BatchIsShort(pipelines: map<string, Schedule.Scheduled>, now: Instant, limit: nat, batch: seq<string>)
    requires Schedule.IsBatch(pipelines, now, limit, batch)
    ensures |batch| <= limit && NoDup(batch)
  {
  }

  // ---- the sweep ----

  predicate IsStale(r: Run, heartbeatBefore: Instant, queuedBefore: Instant) {
    || (r.status == Running && r.heartbeatAt.Some? && r.heartbeatAt.value < heartbeatBefore)
    || (r.status == RunQueued && r.createdAt < queuedBefore)
  }

  function Reason(r: Run): string {
    if r.status != RunQueued then "worker lost: no heartbeat" else "never started (the worker that accepted it went away)"
  }

  function Swept(r: Run, now: Instant): Run { r.(status := Failed, error := Some(Reason(r)), finishedAt := Some(now)) }

  function StaleRuns(runs: map<string, Run>, heartbeatBefore: Instant, queuedBefore: Instant): set<string> {
    set id | id in runs && IsStale(runs[id], heartbeatBefore, queuedBefore)
  }

  // Which runs a sweep ends: one whose worker has not been heard of since the limit, or that was queued before its own;
  // every other run stays as it is.
  lemma SweepTakes(db: Db, now: Instant, heartbeatBefore: Instant, queuedBefore: Instant, id: string)
    requires id in db.runs
    ensures var r, swept := db.runs[id], SweptDb(db, StaleRuns(db.runs, heartbeatBefore, queuedBefore), now).runs;
            && id in swept
            && (r.status == Running && r.heartbeatAt.Some? && r.heartbeatAt.value < heartbeatBefore ==>
                  swept[id].status == Failed && swept[id].error == Some("worker lost: no heartbeat") && swept[id].finishedAt == Some(now))
            && (r.status == RunQueued && r.createdAt < queuedBefore ==>
                  swept[id].status == Failed && swept[id].finishedAt == Some(now) &&
                  swept[id].error == Some("never started (the worker that accepted it went away)"))
            && (r.status == Running && (r.heartbeatAt.None? || heartbeatBefore <= r.heartbeatAt.value) ==> swept[id] == r)
            && (r.status == RunQueued && queuedBefore <= r.createdAt ==> swept[id] == r)
            && (!IsActive(r.status) ==> swept[id] == r)
  {
    hide SweptRow;
  }

  // Releasing a follow-up twice is releasing it once.
  lemma FinishedTwice(st: State, t: EventTrigger, now: Instant)
    ensures Finished(Finished(st, t, now), t, now) == Finished(st, t, now)
  {
  }

  // A row after some runs of its pipeline were failed: a follow-up owed is released.
  function SweptRow(db: Db, gone: set<string>, pid: string, now: Instant): State
    requires pid in db.states && gone <= db.runs.Keys
  {
    if pid in db.pipelines && Watching(db.pipelines[pid].cfg) && (exists id :: id in gone && db.runs[id].pipelineId == pid)
    then Finished(db.states[pid], db.pipelines[pid].cfg.trigger.value, now)
    else db.states[pid]
  }

  function SweptDb(db: Db, gone: set<string>, now: Instant): Db
    requires gone <= db.runs.Keys
  {
    db.(runs := map id | id in db.runs :: if id in gone then Swept(db.runs[id], now) else db.runs[id],
        states := map pid | pid in db.states :: SweptRow(db, gone, pid, now))
  }

  lemma SweepOne(db: Db, gone: set<string>, id: string, now: Instant)
    requires gone <= db.runs.Keys && id in db.runs && id !in gone && IsActive(db.runs[id].status)
    ensures FinishDb(SweptDb(db, gone, now), id, Failed, Some(Reason(db.runs[id])), now) == SweptDb(db, gone + {id}, now)
  {
    var done := FinishDb(SweptDb(db, gone, now), id, Failed, Some(Reason(db.runs[id])), now);
    SweepRest(db, gone, id, now);
    SweepRuns(db, gone, id, now);
    forall pid | pid in db.states ensures done.states[pid] == SweptRow(db, gone + {id}, pid, now) {
      SweepRow(db, gone, id, now, pid);
    }
    hide FinishDb, SweptRow, Swept, Reason;
    assert done.states == SweptDb(db, gone + {id}, now).states;
  }

  lemma SweepRest(db: Db, gone: set<string>, id: string, now: Instant)
    requires gone <= db.runs.Keys && id in db.runs
    ensures var done := FinishDb(SweptDb(db, gone, now), id, Failed, Some(Reason(db.runs[id])), now);
            done.pipelines == db.pipelines && done.seen == db.seen && done.states.Keys == db.states.Keys
  {
    hide SweptRow;
  }

  lemma SweepRuns(db: Db, gone: set<string>, id: string, now: Instant)
    requires gone <= db.runs.Keys && id in db.runs && id !in gone && IsActive(db.runs[id].status)
    ensures FinishDb(SweptDb(db, gone, now), id, Failed, Some(Reason(db.runs[id])), now).runs == SweptDb(db, gone + {id}, now).runs
  {
  }

  lemma SweepRow(db: Db, gone: set<string>, id: string, now: Instant, pid: string)
    requires gone <= db.runs.Keys && id in db.runs && id !in gone && IsActive(db.runs[id].status) && pid in db.states
    ensures pid in FinishDb(SweptDb(db, gone, now), id, Failed, Some(Reason(db.runs[id])), now).states
    ensures FinishDb(SweptDb(db, gone, now), id, Failed, Some(Reason(db.runs[id])), now).states[pid] == SweptRow(db, gone + {id}, pid, now)
  {
    if pid in db.pipelines && Watching(db.pipelines[pid].cfg) {
      FinishedTwice(db.states[pid], db.pipelines[pid].cfg.trigger.value, now);
    }
  }

  // Every stale run is failed with its reason, exactly once, and nothing else is touched but the follow-ups these
  // runs held back.
  method Sweep(store: MemoryStore, now: Instant, heartbeatBefore: Instant, queuedBefore: Instant) returns (failed: nat)
    requires Valid(store.Contents())
    modifies store
    ensures store.Contents() == SweptDb(old(store.Contents()), StaleRuns(old(store.runs), heartbeatBefore, queuedBefore), now)
    ensures failed == |StaleRuns(old(store.runs), heartbeatBefore, queuedBefore)| && Valid(store.Contents())
  {
    ghost var db := store.Contents();
    var stale := StaleRuns(store.runs, heartbeatBefore, queuedBefore);
    var found := store.runs;
    var todo := stale;
    failed := 0;
    assert SweptDb(db, {}, now) == db;
    while todo != {}
      invariant todo <= stale && failed + |todo| == |stale|
      invariant store.Contents() == SweptDb(db, stale - todo, now) && Valid(store.Contents())
      decreases todo
    {
      var id :| id in todo;
      SweepOne(db, stale - todo, id, now);
      assert stale - todo + {id} == stale - (todo - {id});
      assert store.runs[id] == db.runs[id];
      var won := store.FinishRun(id, Failed, Some(Reason(found[id])), now);
      if won {
        failed := failed + 1;
      }
      todo := todo - {id};
    }
    assert stale - todo == stale;
  }

  // ---- a whole tick ----

  // Ids enough for every start a tick can make.
  ghost predicate FreshTick(db: Db, pairs: nat -> (string, string), ids: nat -> string) {
    && FreshPairs(db.runs, pairs, CLAIM_BATCH) && Fresh(db, ids, CLAIM_BATCH)
    && (forall j, k :: 0 <= j < CLAIM_BATCH && 0 <= k < CLAIM_BATCH ==> ids(k) != pairs(j).0 && ids(k) != pairs(j).1)
  }

  lemma StillFresh(db: Db, runs: map<string, Run>, batch: seq<string>, slots: seq<Option<Instant>>, versioned: set<string>,
                   pairs: nat -> (string, string), ids: nat -> string, now: Instant)
    requires FreshTick(db, pairs, ids) && |batch| == |slots| <= CLAIM_BATCH
    requires SlotsRecorded(db, runs, batch, slots, |batch|, versioned, pairs, now)
    ensures Fresh(db.(runs := runs), ids, CLAIM_BATCH)
  {
    hide Busy, Concurrent, SlotRun;
    forall id | id in runs && id !in db.runs ensures exists j :: 0 <= j < |batch| && (id == pairs(j).0 || id == pairs(j).1) {
      var j :| 0 <= j < |batch| && batch[j] in versioned && id == SlotId(Busy(db.runs, batch[j], Concurrent(db, batch[j])), pairs(j));
    }
  }

  lemma {:induction false} SlotStartsAreQueued(db: Db, runs: map<string, Run>, batch: seq<string>, slots: seq<Option<Instant>>, i: nat,
                                               versioned: set<string>, pairs: nat -> (string, string), now: Instant, id: string)
    requires i <= |batch| == |slots| && SlotsRecorded(db, runs, batch, slots, |batch|, versioned, pairs, now)
    requires id in SlotStarts(db, batch, i, versioned, pairs)
    ensures id in runs && runs[id].status == RunQueued && runs[id].createdAt == now
  {
    hide Busy, Concurrent;
    var last := i - 1;
    if id in SlotStarts(db, batch, last, versioned, pairs) {
      SlotStartsAreQueued(db, runs, batch, slots, last, versioned, pairs, now, id);
    } else {
      assert id == SlotId(false, pairs(last));
    }
  }

  lemma {:induction false} EventStartsAreQueued(db: Db, runs: map<string, Run>, fires: seq<(string, Fired)>, i: nat, versioned: set<string>,
                                                ids: nat -> string, now: Instant, id: string)
    requires i <= |fires| && StartedFirst(db, runs, fires, |fires|, versioned, ids, now) && id in StartedIds(fires, i, versioned, ids)
    ensures id in runs && runs[id].status == RunQueued && runs[id].createdAt == now
  {
    if id in StartedIds(fires, i - 1, versioned, ids) {
      EventStartsAreQueued(db, runs, fires, i - 1, versioned, ids, now, id);
    } else {
      assert id == ids(i - 1);
    }
  }

  // The store before a tick, after its slots, after its event fires and after its sweep; and what was claimed.
  datatype Trace = Trace(was: Db, slotted: Db, fired: Db, swept: Db, batch: seq<string>, slots: seq<Option<Instant>>,
                         picked: seq<string>, fires: seq<(string, Fired)>)

  // The clock readings a tick uses.
  datatype Clock = Clock(now: Instant, sweptAt: Instant, heartbeatBefore: Instant, queuedBefore: Instant)

  // The slots first, then the event fires of the store those left, then the sweep.
  ghost predicate Ticked(tr: Trace, versioned: set<string>, pairs: nat -> (string, string), ids: nat -> string, at: Clock) {
    && |tr.slots| == |tr.batch| && SlotsRecorded(tr.was, tr.slotted.runs, tr.batch, tr.slots, |tr.batch|, versioned, pairs, at.now)
    && tr.slotted == tr.was.(runs := tr.slotted.runs)
    && IsBatch(tr.slotted, at.now, CLAIM_BATCH, tr.picked) && (forall pid :: pid in tr.picked ==> pid in tr.slotted.pipelines)
    && tr.fires == FiresDb(tr.slotted, at.now, tr.picked) && tr.fired == ClaimDb(tr.slotted, at.now, tr.picked).(runs := tr.fired.runs)
    && StartedFirst(tr.slotted, tr.fired.runs, tr.fires, |tr.fires|, versioned, ids, at.now)
    && tr.swept == SweptDb(tr.fired, StaleRuns(tr.fired.runs, at.heartbeatBefore, at.queuedBefore), at.sweptAt)
  }

  function Starts(tr: Trace, versioned: set<string>, pairs: nat -> (string, string), ids: nat -> string): seq<string> {
    SlotStarts(tr.was, tr.batch, |tr.batch|, versioned, pairs) + StartedIds(tr.fires, |tr.fires|, versioned, ids)
  }

  lemma StartsAreQueued(tr: Trace, versioned: set<string>, pairs: nat -> (string, string), ids: nat -> string, at: Clock, id: string)
    requires Ticked(tr, versioned, pairs, ids, at) && id in Starts(tr, versioned, pairs, ids)
    ensures id in tr.fired.runs && tr.fired.runs[id].status == RunQueued && tr.fired.runs[id].createdAt == at.now
  {
    if id in SlotStarts(tr.was, tr.batch, |tr.batch|, versioned, pairs) {
      SlotStartsAreQueued(tr.was, tr.slotted.runs, tr.batch, tr.slots, |tr.batch|, versioned, pairs, at.now, id);
      assert id in tr.slotted.runs;
    } else {
      EventStartsAreQueued(tr.slotted, tr.fired.runs, tr.fires, |tr.fires|, versioned, ids, at.now, id);
    }
  }

  // A fire of a pipeline with a version to run is in a queued run of that pipeline.
  predicate CarriedByRun(runs: map<string, Run>, id: string, pid: string, fired: Fired, now: Instant) {
    id in runs && runs[id].pipelineId == pid && runs[id].status == RunQueued && runs[id].triggerEvents == Some(fired) && runs[id].createdAt == now
  }

  // A slot is recorded with a queued run, or, when the pipeline was busy, with one skipped and over.
  predicate RecordsSlot(runs: map<string, Run>, id: string, pid: string, slot: Option<Instant>, busy: bool, now: Instant) {
    && id in runs && runs[id].pipelineId == pid && runs[id].scheduledFor == slot && runs[id].triggerEvents.None? && runs[id].createdAt == now
    && (if busy then runs[id].status == RunSkipped && runs[id].finishedAt == Some(now) && runs[id].error == Some("previous run still active")
        else runs[id].status == RunQueued && runs[id].finishedAt.None?)
  }

  // What the runs a tick leaves say: each slot that was claimed and each fire is in a run of its own pipeline.
  lemma TickRunsSay(tr: Trace, versioned: set<string>, pairs: nat -> (string, string), ids: nat -> string, at: Clock, k: nat)
    requires Ticked(tr, versioned, pairs, ids, at)
    ensures k < |tr.fires| && tr.fires[k].0 in versioned ==> CarriedByRun(tr.fired.runs, ids(k), tr.fires[k].0, tr.fires[k].1, at.now)
    ensures k < |tr.batch| && tr.batch[k] in versioned ==>
              var busy := Busy(tr.was.runs, tr.batch[k], Concurrent(tr.was, tr.batch[k]));
              RecordsSlot(tr.slotted.runs, if busy then pairs(k).1 else pairs(k).0, tr.batch[k], tr.slots[k], busy, at.now)
  {
    hide Busy, Concurrent, FiresDb, ClaimDb, IsBatch, SweptDb, StaleRuns;
  }

  lemma FreshRunSurvives(db: Db, at: Clock, id: string)
    requires id in db.runs && db.runs[id].status == RunQueued && db.runs[id].createdAt == at.now
    ensures var swept := SweptDb(db, StaleRuns(db.runs, at.heartbeatBefore, at.queuedBefore), at.sweptAt);
            id in swept.runs && (swept.runs[id].status == RunQueued <==> at.queuedBefore <= at.now)
  {
    hide SweptRow;
  }

  // The runs a tick reports are there when it ends; the sweep of the same tick takes one exactly when the queue
  // timeout is negative.
  lemma StartsSurviveTheSweep(tr: Trace, versioned: set<string>, pairs: nat -> (string, string), ids: nat -> string, at: Clock, id: string)
    requires Ticked(tr, versioned, pairs, ids, at) && id in Starts(tr, versioned, pairs, ids)
    ensures id in tr.swept.runs && (tr.swept.runs[id].status == RunQueued <==> at.queuedBefore <= at.now)
  {
    hide Starts;
    StartsAreQueued(tr, versioned, pairs, ids, at, id);
    FreshRunSurvives(tr.fired, at, id);
  }

  method Tick(schedules: Schedule.ScheduleStore, store: MemoryStore, versioned: set<string>, pairs: nat -> (string, string),
              ids: nat -> string, at: Clock)
    returns (started: seq<string>, ghost tr: Trace)
    requires Schedule.AllWellFormed(schedules.pipelines) && Valid(store.Contents()) && FreshTick(store.Contents(), pairs, ids)
    modifies schedules, store
    ensures Valid(store.Contents()) && tr.was == old(store.Contents()) && tr.swept == store.Contents()
    ensures Schedule.IsBatch(old(schedules.pipelines), at.now, CLAIM_BATCH, tr.batch) && |tr.slots| == |tr.batch|
    ensures forall k :: 0 <= k < |tr.batch| ==>
              tr.batch[k] in old(schedules.pipelines) && tr.slots[k] == SlotOf(old(schedules.pipelines)[tr.batch[k]], at.now)
    ensures forall pid :: pid in tr.batch ==> pid in schedules.pipelines && !Schedule.IsDue(schedules.pipelines[pid], at.now)
    ensures Ticked(tr, versioned, pairs, ids, at) && started == Starts(tr, versioned, pairs, ids)
  {
    hide SlotsRecorded, FreshPairs, Fresh, StartedFirst, StaleRuns, SweptDb, ClaimDb, FiresDb, SlotStarts, StartedIds;
    ghost var was := store.Contents();
    ghost var batch, slots, picked, fires;
    started, batch, slots := TickSchedules(schedules, store, at.now, versioned, pairs);
    ghost var slotted := store.Contents();
    StillFresh(was, store.runs, batch, slots, versioned, pairs, ids, at.now);
    var more;
    more, fires, picked := TickEvents(store, at.now, versioned, ids);
    ghost var fired := store.Contents();
    var failed := Sweep(store, at.sweptAt, at.heartbeatBefore, at.queuedBefore);
    started := started + more;
    tr := Trace(was, slotted, fired, store.Contents(), batch, slots, picked, fires);
  }
}
