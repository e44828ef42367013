// The in-memory store's event-trigger and run methods (src/booth_pipeline/store/memory.py), over its dicts.
// Every method is one atomic step, as under the source's lock. Each is proved against a function on the dicts'
// contents, and the Projects lemmas say that what it does to one pipeline is the AtomicStore operation;
// MemoryRuns composes them over whole runs.
module MemoryStore {
  import opened Basics
  import opened Triggers
  import opened AtomicStore
  import opened Sorting
  import P = TriggerProtocol

  datatype Pipeline = Pipeline(workspace: string, name: string, cfg: Config)

  // The contents of the dicts: pipelines, runs, trigger rows, and the stream sequences already handled.
  datatype Db = Db(pipelines: map<string, Pipeline>, runs: map<string, Run>, states: map<string, State>, seen: map<int, Instant>)

  predicate Valid(db: Db) { db.states.Keys <= db.pipelines.Keys }

  function RunsOf(runs: map<string, Run>, pid: string): map<string, Run> {
    map id | id in runs && runs[id].pipelineId == pid :: runs[id]
  }

  function RowOf(states: map<string, State>, pid: string): Option<State> {
    if pid in states then Some(states[pid]) else None
  }

  // One pipeline's part of the store.
  function PipeOf(db: Db, pid: string): Pipe
    requires pid in db.pipelines
  {
    Pipe(db.pipelines[pid].cfg, RowOf(db.states, pid), RunsOf(db.runs, pid))
  }

  // ---- ingest ----

  // The pipeline one of whose runs wrote the event, if it names a known run.
  function Writer(db: Db, ev: TriggerEvent): Option<string> {
    var run := OwnRunId(ev.principal, ev.workspace);
    if run.Some? && run.value in db.runs then Some(db.runs[run.value].pipelineId) else None
  }

  predicate Concerned(db: Db, pid: string, ev: TriggerEvent) {
    && pid in db.pipelines && db.pipelines[pid].workspace == ev.workspace && Watching(db.pipelines[pid].cfg)
    && Concerns(db.pipelines[pid].cfg.trigger.value, db.pipelines[pid].cfg.since, ev)
  }

  function Hits(db: Db, ev: TriggerEvent): set<string> { set pid | pid in db.pipelines && Concerned(db, pid, ev) }

  predicate Redelivered(db: Db, sequence: Option<int>) { sequence.Some? && sequence.value in db.seen }

  // What one event does to one pipeline it concerns: the new row, and the outcome.
  function IngestResult(db: Db, ev: TriggerEvent, now: Instant, pid: string): (State, Outcome)
    requires Concerned(db, pid, ev)
  {
    (Row(IngestPipe(PipeOf(db, pid), ev, now, Writer(db, ev) == Some(pid))), OutcomeAt(PipeOf(db, pid), Writer(db, ev) == Some(pid)))
  }

  function IngestResults(db: Db, ev: TriggerEvent, now: Instant): map<string, (State, Outcome)> {
    map pid | pid in Hits(db, ev) :: IngestResult(db, ev, now, pid)
  }

  function Rows(results: map<string, (State, Outcome)>): map<string, State> { map pid | pid in results :: results[pid].0 }

  function Outcomes(results: map<string, (State, Outcome)>): map<string, Outcome> { map pid | pid in results :: results[pid].1 }

  function IngestDb(db: Db, ev: TriggerEvent, sequence: Option<int>, now: Instant): Db {
    if Redelivered(db, sequence) then db
    else db.(
      seen := if sequence.Some? then db.seen[sequence.value := now] else db.seen,
      states := db.states + Rows(IngestResults(db, ev, now)))
  }

  // ---- claim ----

  predicate IsDueIn(db: Db, pid: string, now: Instant) { pid in db.states && pid in db.pipelines && Picked(PipeOf(db, pid), now) }

  function ClaimRow(db: Db, now: Instant, pid: string): State
    requires pid in db.pipelines
  {
    Row(ClaimPipe(PipeOf(db, pid), now))
  }

  function ClaimDb(db: Db, now: Instant, picked: seq<string>): Db
    requires forall pid :: pid in picked ==> pid in db.pipelines
  {
    db.(states := db.states + map pid | pid in picked :: ClaimRow(db, now, pid))
  }

  function FiresDb(db: Db, now: Instant, picked: seq<string>): seq<(string, Fired)>
    requires forall pid :: pid in picked ==> pid in db.pipelines
  {
    if picked == [] then []
    else
      var n := |picked| - 1;
      FiresDb(db, now, picked[..n]) +
      (if ClaimFire(PipeOf(db, picked[n]), now).Some? then [(picked[n], ClaimFire(PipeOf(db, picked[n]), now).value)] else [])
  }

  // The order of a claim batch: fires by their time and then by the pipeline, then the follow-ups nothing released.
  ghost predicate InClaimOrder(states: map<string, State>, due: seq<string>) {
    forall i, j :: 0 <= i < j < |due| && due[i] in states && due[j] in states && states[due[j]].fireAt.Some? ==>
      states[due[i]].fireAt.Some? && ByKey(FireTimes(states))(due[i], due[j])
  }

  // A batch is the front of everything due, in claim order.
  ghost predicate IsBatch(db: Db, now: Instant, limit: nat, picked: seq<string>) {
    exists due :: IsAllDue(db, now, due) && picked == Take(due, limit)
  }

  ghost predicate IsAllDue(db: Db, now: Instant, due: seq<string>) {
    NoDup(due) && InClaimOrder(db.states, due) && (forall pid :: pid in due <==> IsDueIn(db, pid, now))
  }

  // ---- the other operations ----

  function RequeueDb(db: Db, pid: string, fired: Fired, now: Instant): Db {
    if pid in db.pipelines && pid in db.states
    then db.(states := db.states[pid := Row(RequeuePipe(Memory, PipeOf(db, pid), fired, now))])
    else db
  }

  function Watchers(db: Db): set<string> { set pid | pid in db.pipelines && Watching(db.pipelines[pid].cfg) }

  function MissRow(db: Db, now: Instant, pid: string): State
    requires pid in db.pipelines
  {
    Row(MissPipe(PipeOf(db, pid), now))
  }

  function MissDb(db: Db, now: Instant): Db {
    db.(states := db.states + map pid | pid in Watchers(db) :: MissRow(db, now, pid))
  }

  function FinishDb(db: Db, id: string, status: RunStatus, error: Option<string>, now: Instant): Db {
    if id !in db.runs || !IsActive(db.runs[id].status) then db
    else
      var pid := db.runs[id].pipelineId;
      db.(runs := db.runs[id := db.runs[id].(status := status, error := error, finishedAt := Some(now))],
          states := if pid in db.pipelines && pid in db.states && Watching(db.pipelines[pid].cfg)
                    then db.states[pid := Finished(db.states[pid], db.pipelines[pid].cfg.trigger.value, now)] else db.states)
  }

  function ConfigureDb(db: Db, pid: string, cfg: Config): Db
    requires pid in db.pipelines
  {
    db.(pipelines := db.pipelines[pid := db.pipelines[pid].(cfg := cfg)],
        states := if pid in db.states then db.states[pid := Row(ConfigurePipe(PipeOf(db, pid), cfg))] else db.states)
  }

  function DeleteDb(db: Db, pid: string): Db {
    db.(pipelines := db.pipelines - {pid}, states := db.states - {pid}, runs := map id | id in db.runs && db.runs[id].pipelineId != pid :: db.runs[id])
  }

  function MarkDb(db: Db, id: string, worker: string, now: Instant): Db {
    if id in db.runs && db.runs[id].status == RunQueued
    then db.(runs := db.runs[id := db.runs[id].(status := Running, startedAt := Some(now), workerId := Some(worker), heartbeatAt := Some(now))])
    else db
  }

  // An exclusive creation is refused while the pipeline has an active run.
  predicate Refused(db: Db, run: Run, exclusive: bool) { exclusive && Active(RunsOf(db.runs, run.pipelineId)) }

  function CreateDb(db: Db, id: string, run: Run, exclusive: bool): Db {
    if Refused(db, run, exclusive) then db else db.(runs := db.runs[id := run])
  }

  // A new pipeline has no trigger, no row and no runs.
  function NewPipeline(workspace: string, name: string): Pipeline { Pipeline(workspace, name, Config(None, None, false)) }

  predicate NameTaken(db: Db, workspace: string, name: string) {
    exists pid :: pid in db.pipelines && db.pipelines[pid].workspace == workspace && db.pipelines[pid].name == name
  }

  function AddDb(db: Db, pid: string, workspace: string, name: string): Db {
    if NameTaken(db, workspace, name) then db else db.(pipelines := db.pipelines[pid := NewPipeline(workspace, name)])
  }

  function EndTimes(runs: map<string, Run>): map<string, Instant> {
    map id | id in runs && runs[id].finishedAt.Some? :: runs[id].finishedAt.value
  }

  predicate IsOld(r: Run, before: Instant) { !IsActive(r.status) && r.finishedAt.Some? && r.finishedAt.value < before }

  // What retention takes in one go: the runs that ended longest ago.
  ghost predicate IsRetired(runs: map<string, Run>, before: Instant, limit: nat, retired: seq<string>) {
    exists ended :: NoDup(ended) && Sorted(ByKey(EndTimes(runs)), ended) && retired == Take(ended, limit) &&
                       forall id :: id in ended <==> id in runs && IsOld(runs[id], before)
  }

  // ---- every operation, as a function on the contents ----

  datatype Op =
    | Ingest(ev: TriggerEvent, sequence: Option<int>, now: Instant)
    | Claim(now: Instant, picked: seq<string>)
    | Requeue(pid: string, fired: Fired, now: Instant)
    | Miss(now: Instant)
    | Create(id: string, run: Run, exclusive: bool)
    | Mark(id: string, worker: string, now: Instant)
    | Finish(id: string, status: RunStatus, error: Option<string>, now: Instant)
    | PruneRuns(ids: set<string>)
    | PruneSeen(before: Instant)
    | Add(pid: string, workspace: string, name: string)
    | Configure(pid: string, cfg: Config)
    | Delete(pid: string)

  function Pruned(seen: map<int, Instant>, before: Instant): map<int, Instant> {
    map s | s in seen && !(seen[s] < before) :: seen[s]
  }

  function Do(db: Db, op: Op): Db {
    match op
    case Ingest(ev, sequence, now) => IngestDb(db, ev, sequence, now)
    case Claim(now, picked) => if forall pid :: pid in picked ==> pid in db.pipelines then ClaimDb(db, now, picked) else db
    case Requeue(pid, fired, now) => RequeueDb(db, pid, fired, now)
    case Miss(now) => MissDb(db, now)
    case Create(id, run, exclusive) => CreateDb(db, id, run, exclusive)
    case Mark(id, worker, now) => MarkDb(db, id, worker, now)
    case Finish(id, status, error, now) => FinishDb(db, id, status, error, now)
    case PruneRuns(ids) => db.(runs := Retained(db.runs, ids))
    case PruneSeen(before) => db.(seen := Pruned(db.seen, before))
    case Add(pid, workspace, name) => AddDb(db, pid, workspace, name)
    case Configure(pid, cfg) => if pid in db.pipelines then ConfigureDb(db, pid, cfg) else db
    case Delete(pid) => DeleteDb(db, pid)
  }

  lemma FiresNone(db: Db, now: Instant)
    ensures FiresDb(db, now, []) == []
  {
  }

  lemma FiresSnoc(db: Db, now: Instant, batch: seq<string>, i: nat)
    requires i < |batch| && forall pid :: pid in batch ==> pid in db.pipelines
    ensures forall pid :: pid in batch[..i] || pid in batch[..i + 1] ==> pid in batch
    ensures FiresDb(db, now, batch[..i + 1]) ==
            FiresDb(db, now, batch[..i]) +
            (if ClaimFire(PipeOf(db, batch[i]), now).Some? then [(batch[i], ClaimFire(PipeOf(db, batch[i]), now).value)] else [])
  {
    assert batch[..i + 1][..i] == batch[..i];
  }

  // `_state`: the row, created when first needed.
  method Load(db: Db, pid: string) returns (st: EventTriggerState)
    ensures fresh(st) && st.Row() == RowOf(db.states, pid).GetOr(EMPTY)
  {
    st := new EventTriggerState(if pid in db.states then db.states[pid] else EMPTY);
  }

  method IngestOne(db: Db, pid: string, ev: TriggerEvent, now: Instant) returns (result: (State, Outcome))
    requires Concerned(db, pid, ev)
    ensures result == IngestResult(db, ev, now, pid)
  {
    var p, ownRun := db.pipelines[pid], Writer(db, ev) == Some(pid);
    var st := Load(db, pid);
    var outcome := st.Ingest(p.cfg.trigger.value, ev, now, ownRun, Active(RunsOf(db.runs, pid)), p.cfg.concurrent);
    result := (st.Row(), outcome);
  }

  // The rows and outcomes one event gives; the caller commits the rows.
  method IngestEach(db: Db, ev: TriggerEvent, now: Instant) returns (results: map<string, (State, Outcome)>)
    requires Valid(db)
    ensures results == IngestResults(db, ev, now)
  {
    results := map[];
    var hits := Hits(db, ev);
    var todo := hits;
    while todo != {}
      invariant todo <= hits && results.Keys == hits - todo
      invariant forall pid :: pid in results ==> results[pid] == IngestResult(db, ev, now, pid)
      decreases todo
    {
      var pid :| pid in todo;
      var result := IngestOne(db, pid, ev, now);
      results, todo := results[pid := result], todo - {pid};
    }
  }

  function FireTimes(states: map<string, State>): map<string, Instant> {
    map pid | pid in states && states[pid].fireAt.Some? :: states[pid].fireAt.value
  }

  predicate IsOwed(db: Db, pid: string) {
    pid in db.states && db.states[pid].queued && db.states[pid].fireAt.None? && !Active(RunsOf(db.runs, pid))
  }

  lemma FiresThenOwed(db: Db, fires: seq<string>, owed: seq<string>)
    requires Sorted(ByKey(FireTimes(db.states)), fires) && forall pid :: pid in fires ==> pid in FireTimes(db.states)
    requires forall pid :: pid in owed ==> IsOwed(db, pid)
    ensures InClaimOrder(db.states, fires + owed)
  {
    var due := fires + owed;
    assert forall k :: |fires| <= k < |due| ==> due[k] in owed;
    forall i, j | 0 <= i < j < |due| && due[i] in db.states && due[j] in db.states && db.states[due[j]].fireAt.Some?
      ensures db.states[due[i]].fireAt.Some? && ByKey(FireTimes(db.states))(due[i], due[j])
    {
      assert j < |fires| && fires[i] in fires && fires[j] in fires;
    }
  }

  // Everything due: fires whose time has come, soonest first, then follow-ups owed to no active run.
  method AllDue(db: Db, now: Instant) returns (due: seq<string>)
    requires Valid(db)
    ensures IsAllDue(db, now, due)
  {
    var fires := SortIds(FireTimes(db.states), set pid | pid in db.states && P.IsDue(db.states[pid], now));
    var owed := ListIds(set pid | pid in db.states && IsOwed(db, pid));
    NoDupConcat(fires, owed);
    FiresThenOwed(db, fires, owed);
    due := fires + owed;
    assert forall pid :: pid in due <==> pid in fires || pid in owed;
  }

  method ClaimOne(db: Db, pid: string, now: Instant) returns (row: State, fired: Option<Fired>)
    requires pid in db.pipelines && IsDueIn(db, pid, now)
    ensures row == ClaimRow(db, now, pid) && fired == ClaimFire(PipeOf(db, pid), now)
  {
    var p := db.pipelines[pid];
    var st := Load(db, pid);
    fired := None;
    if Watching(p.cfg) {
      if st.queued && st.fireAt.None? {
        st.OnRunFinished(p.cfg.trigger.value, now);
      }
      if st.fireAt.Some? && st.fireAt.value <= now {
        fired := st.OnDue(p.cfg.trigger.value, now, Active(RunsOf(db.runs, pid)), p.cfg.concurrent);
      }
    }
    row := st.Row();
  }

  // The changed rows and the fires of a batch; the caller commits the rows.
  method ClaimEach(db: Db, batch: seq<string>, now: Instant) returns (rows: map<string, State>, out: seq<(string, Fired)>)
    requires Valid(db) && NoDup(batch)
    requires forall pid :: pid in batch ==> pid in db.pipelines && IsDueIn(db, pid, now)
    ensures rows == map pid | pid in batch :: ClaimRow(db, now, pid)
    ensures out == FiresDb(db, now, batch)
  {
    hide *;
    rows, out := map[], [];
    FiresNone(db, now);
    var i := 0;
    while i < |batch|
      invariant 0 <= i <= |batch|
      invariant forall pid :: pid in batch[..i] ==> pid in batch
      invariant forall pid :: pid in rows <==> pid in batch[..i]
      invariant forall pid :: pid in rows ==> rows[pid] == ClaimRow(db, now, pid)
      invariant out == FiresDb(db, now, batch[..i])
    {
      var pid := batch[i];
      assert pid in batch;
      FiresSnoc(db, now, batch, i);
      var row, fired := ClaimOne(db, pid, now);
      assert batch[..i + 1] == batch[..i] + [pid];
      rows := rows[pid := row];
      if fired.Some? {
        out := out + [(pid, fired.value)];
      }
      i := i + 1;
    }
    assert batch[..i] == batch;
  }

  method MissOne(db: Db, pid: string, now: Instant) returns (row: State)
    requires pid in db.pipelines && Watching(db.pipelines[pid].cfg)
    ensures row == MissRow(db, now, pid)
  {
    var st := Load(db, pid);
    st.OnMissedEvents(db.pipelines[pid].cfg.trigger.value, now);
    row := st.Row();
  }

  // The changed rows, and how many triggers are watching.
  method MissEach(db: Db, now: Instant) returns (rows: map<string, State>, n: nat)
    ensures rows == map pid | pid in Watchers(db) :: MissRow(db, now, pid)
    ensures n == |Watchers(db)|
  {
    var hits := Watchers(db);
    rows, n := map[], 0;
    var todo := hits;
    while todo != {}
      invariant todo <= hits && n + |todo| == |hits| && rows.Keys == hits - todo
      invariant forall pid :: pid in rows ==> rows[pid] == MissRow(db, now, pid)
      decreases todo
    {
      var pid :| pid in todo;
      var row := MissOne(db, pid, now);
      rows, n, todo := rows[pid := row], n + 1, todo - {pid};
    }
  }

  method Retire(runs: map<string, Run>, before: Instant, limit: nat) returns (retired: seq<string>)
    ensures IsRetired(runs, before, limit, retired) && NoDup(retired)
    ensures forall id :: id in retired ==> id in runs && !IsActive(runs[id].status)
  {
    var ended := SortIds(EndTimes(runs), set id | id in runs && IsOld(runs[id], before));
    retired := Take(ended, limit);
    assert forall id :: id in retired ==> id in ended;
  }

  lemma RetainedSize(runs: map<string, Run>, gone: seq<string>)
    requires NoDup(gone) && forall id :: id in gone ==> id in runs && !IsActive(runs[id].status)
    ensures runs - Elems(gone) == Retained(runs, Elems(gone)) && |runs - Elems(gone)| == |runs| - |gone|
  {
    NoDupSize(gone);
    var rest := runs - Elems(gone);
    assert runs.Keys == rest.Keys + Elems(gone) && |runs.Keys| == |rest.Keys| + |Elems(gone)|;
    assert |runs| == |runs.Keys| && |rest| == |rest.Keys|;
  }

  class MemoryStore {
    var pipelines: map<string, Pipeline>
    var runs: map<string, Run>
    var states: map<string, State>
    var seen: map<int, Instant>

    function Contents(): Db
      reads this
    {
      Db(pipelines, runs, states, seen)
    }

    constructor ()
      ensures Contents() == Db(map[], map[], map[], map[])
    {
      pipelines, runs, states, seen := map[], map[], map[], map[];
    }

    method IngestTriggerEvent(ev: TriggerEvent, sequence: Option<int>, now: Instant) returns (out: Option<map<string, Outcome>>)
      requires Valid(Contents())
      modifies this`states, this`seen
      ensures Contents() == IngestDb(old(Contents()), ev, sequence, now) && Valid(Contents())
      ensures out == if Redelivered(old(Contents()), sequence) then None else Some(Outcomes(IngestResults(old(Contents()), ev, now)))
    {
      if sequence.Some? && sequence.value in seen {
        return None;
      }
      var results := IngestEach(Contents(), ev, now);
      if sequence.Some? {
        seen := seen[sequence.value := now];
      }
      states := states + Rows(results);
      out := Some(Outcomes(results));
    }

    method ClaimDueEventTriggers(now: Instant, limit: nat) returns (out: seq<(string, Fired)>, ghost picked: seq<string>)
      requires Valid(Contents())
      modifies this`states
      ensures IsBatch(old(Contents()), now, limit, picked)
      ensures forall pid :: pid in picked ==> pid in pipelines
      ensures Contents() == ClaimDb(old(Contents()), now, picked) && Valid(Contents())
      ensures out == FiresDb(old(Contents()), now, picked)
    {
      var due := AllDue(Contents(), now);
      var batch := Take(due, limit);
      assert forall pid :: pid in batch ==> pid in due && IsDueIn(Contents(), pid, now);
      var rows, fires := ClaimEach(Contents(), batch, now);
      states, out, picked := states + rows, fires, batch;
    }

    method RequeueEventTrigger(pid: string, fired: Fired, now: Instant)
      requires Valid(Contents())
      modifies this
      ensures Contents() == RequeueDb(old(Contents()), pid, fired, now) && Valid(Contents())
    {
      if pid in pipelines && pid in states && pipelines[pid].cfg.trigger.Some? {
        var st := Load(Contents(), pid);
        st.Requeue(pipelines[pid].cfg.trigger.value, fired);
        if !Active(RunsOf(runs, pid)) {
          st.OnRunFinished(pipelines[pid].cfg.trigger.value, now);
        }
        states := states[pid := st.Row()];
      }
    }

    method EventTriggersMissedEvents(now: Instant) returns (n: nat)
      requires Valid(Contents())
      modifies this`states
      ensures Contents() == MissDb(old(Contents()), now) && Valid(Contents())
      ensures n == |Watchers(Contents())|
    {
      var rows, count := MissEach(Contents(), now);
      states, n := states + rows, count;
    }

    method PruneSeenTriggerEvents(before: Instant) returns (n: nat)
      modifies this`seen
      ensures seen == Pruned(old(seen), before)
      ensures n == |old(seen)| - |seen|
    {
      var aged := set s | s in seen && seen[s] < before;
      n := |aged|;
      ghost var was := seen;
      seen := seen - aged;
      assert was.Keys == seen.Keys + aged;
      assert |was.Keys| == |seen.Keys| + |aged|;
    }

    // False is the source's Busy.
    method CreateRun(id: string, run: Run, exclusive: bool) returns (ok: bool)
      modifies this`runs
      ensures ok <==> (exclusive ==> !Active(RunsOf(old(runs), run.pipelineId)))
      ensures runs == (if ok then old(runs)[id := run] else old(runs)) && Contents() == CreateDb(old(Contents()), id, run, exclusive)
    {
      if exclusive && Active(RunsOf(runs, run.pipelineId)) {
        return false;
      }
      runs := runs[id := run];
      ok := true;
    }

    method MarkRunning(id: string, worker: string, now: Instant)
      modifies this`runs
      ensures Contents() == MarkDb(old(Contents()), id, worker, now)
    {
      if id in runs && runs[id].status == RunQueued {
        runs := runs[id := runs[id].(status := Running, startedAt := Some(now), workerId := Some(worker), heartbeatAt := Some(now))];
      }
    }

    // The runs that ended longest ago go, at most `limit`; active ones stay.
    method PruneRuns(before: Instant, limit: nat) returns (n: nat, ghost retired: seq<string>)
      modifies this`runs
      ensures IsRetired(old(runs), before, limit, retired) && n == |retired|
      ensures runs == Retained(old(runs), Elems(retired)) && |runs| == |old(runs)| - n
    {
      var gone := Retire(runs, before, limit);
      RetainedSize(runs, gone);
      n, retired := |gone|, gone;
      runs := runs - Elems(gone);
    }

    // `pid` is a new uuid4. False is the source's Conflict.
    method CreatePipeline(pid: string, workspace: string, name: string) returns (ok: bool)
      requires Valid(Contents()) && pid !in pipelines
      modifies this`pipelines
      ensures ok <==> !NameTaken(old(Contents()), workspace, name)
      ensures Contents() == AddDb(old(Contents()), pid, workspace, name) && Valid(Contents())
    {
      if NameTaken(Contents(), workspace, name) {
        return false;
      }
      pipelines := pipelines[pid := NewPipeline(workspace, name)];
      ok := true;
    }

    method FinishRun(id: string, status: RunStatus, error: Option<string>, now: Instant) returns (won: bool)
      requires Valid(Contents())
      modifies this
      ensures Contents() == FinishDb(old(Contents()), id, status, error, now) && Valid(Contents())
      ensures won <==> id in old(runs) && IsActive(old(runs)[id].status)
    {
      if id !in runs || !IsActive(runs[id].status) {
        return false;
      }
      var r := runs[id];
      runs := runs[id := r.(status := status, error := error, finishedAt := Some(now))];
      var pid := r.pipelineId;
      if pid in pipelines && pid in states && Watching(pipelines[pid].cfg) {
        var st := Load(Contents(), pid);
        st.OnRunFinished(pipelines[pid].cfg.trigger.value, now);
        states := states[pid := st.Row()];
      }
      won := true;
    }

    // False: no such pipeline.
    method UpdateSchedule(pid: string, cfg: Config) returns (found: bool)
      requires Valid(Contents())
      modifies this
      ensures found <==> pid in old(pipelines)
      ensures Contents() == (if found then ConfigureDb(old(Contents()), pid, cfg) else old(Contents())) && Valid(Contents())
    {
      if pid !in pipelines {
        return false;
      }
      pipelines := pipelines[pid := pipelines[pid].(cfg := cfg)];
      if !Watching(cfg) && pid in states {
        var st := Load(Contents(), pid);
        st.ResetPending();
        states := states[pid := st.Row()];
      }
      found := true;
    }

    method DeletePipeline(pid: string) returns (found: bool)
      requires Valid(Contents())
      modifies this
      ensures found <==> pid in old(pipelines)
      ensures Contents() == (if found then DeleteDb(old(Contents()), pid) else old(Contents())) && Valid(Contents())
    {
      if pid !in pipelines {
        return false;
      }
      pipelines := pipelines - {pid};
      states := states - {pid};
      runs := map id | id in runs && runs[id].pipelineId != pid :: runs[id];
      found := true;
    }
  }

  // ---- what each operation does to one pipeline ----

  lemma IngestProjects(db: Db, ev: TriggerEvent, sequence: Option<int>, now: Instant, pid: string)
    requires Valid(db) && pid in db.pipelines && !Redelivered(db, sequence)
    ensures PipeOf(IngestDb(db, ev, sequence, now), pid) ==
            if db.pipelines[pid].workspace == ev.workspace then IngestPipe(PipeOf(db, pid), ev, now, Writer(db, ev) == Some(pid)) else PipeOf(db, pid)
  {
  }

  // An event written by one of a pipeline's own known runs leaves all its trigger waits for alone.
  lemma OwnRunsAreIgnored(db: Db, ev: TriggerEvent, sequence: Option<int>, now: Instant, pid: string, runId: string)
    requires Valid(db) && pid in db.pipelines && runId in db.runs && db.runs[runId].pipelineId == pid
    requires runId != "" && ev.principal == "pipeline:" + ev.workspace + ":" + runId
    ensures var before, after := Row(PipeOf(db, pid)), Row(PipeOf(IngestDb(db, ev, sequence, now), pid));
            after == before || after == before.(ignoredOwnRuns := before.ignoredOwnRuns + 1)
  {
    OwnRunIdIff(ev.principal, ev.workspace, runId);
    assert Writer(db, ev) == Some(pid);
    assert Redelivered(db, sequence) ==> IngestDb(db, ev, sequence, now) == db;
    hide Writer, OwnRunId, IngestDb, PipeOf, Row, IngestPipe;
    if !Redelivered(db, sequence) {
      IngestProjects(db, ev, sequence, now, pid);
      OwnEventIsCounted(PipeOf(db, pid), ev, now);
    }
  }

  lemma OwnEventIsCounted(p: Pipe, ev: TriggerEvent, now: Instant)
    ensures var before, after := Row(p), Row(IngestPipe(p, ev, now, true));
            after == before || after == before.(ignoredOwnRuns := before.ignoredOwnRuns + 1)
  {
    hide Concerns, Active;
  }

  // Every other event that concerns it is heard: it joins the burst or is counted as skipped.
  lemma OthersAreHeard(db: Db, ev: TriggerEvent, sequence: Option<int>, now: Instant, pid: string)
    requires Valid(db) && Concerned(db, pid, ev) && !Redelivered(db, sequence)
    requires forall runId :: runId in db.runs && db.runs[runId].pipelineId == pid ==> ev.principal != "pipeline:" + ev.workspace + ":" + runId
    ensures var before, after := Row(PipeOf(db, pid)), Row(PipeOf(IngestDb(db, ev, sequence, now), pid));
            && after.lastEventAt == Some(now) && after.ignoredOwnRuns == before.ignoredOwnRuns
            && (Joins(before, after, ev) || after.skippedWhileRunning == before.skippedWhileRunning + 1)
  {
    var cfg := db.pipelines[pid].cfg;
    WrittenByOther(db, ev, pid);
    hide Writer;
    IngestProjects(db, ev, sequence, now, pid);
    IngestCases(Row(PipeOf(db, pid)), cfg.trigger.value, ev, now, false, Active(RunsOf(db.runs, pid)), cfg.concurrent);
    hide IngestDb, Hits, Ingested, IngestOutcome, Joins, WaitsFor, RunsOf, Active;
  }

  lemma WrittenByOther(db: Db, ev: TriggerEvent, pid: string)
    requires forall runId :: runId in db.runs && db.runs[runId].pipelineId == pid ==> ev.principal != "pipeline:" + ev.workspace + ":" + runId
    ensures Writer(db, ev) != Some(pid)
  {
    var run := OwnRunId(ev.principal, ev.workspace);
    if run.Some? { OwnRunIdIff(ev.principal, ev.workspace, run.value); }
    hide OwnRunId;
  }

  lemma ClaimProjects(db: Db, now: Instant, picked: seq<string>, pid: string)
    requires Valid(db) && pid in db.pipelines && forall q :: q in picked ==> q in db.pipelines && q in db.states
    ensures PipeOf(ClaimDb(db, now, picked), pid) == if pid in picked then ClaimPipe(PipeOf(db, pid), now) else PipeOf(db, pid)
  {
  }

  lemma RequeueProjects(db: Db, target: string, fired: Fired, now: Instant, pid: string)
    requires Valid(db) && pid in db.pipelines
    ensures PipeOf(RequeueDb(db, target, fired, now), pid) ==
            if pid == target then RequeuePipe(Memory, PipeOf(db, pid), fired, now) else PipeOf(db, pid)
  {
  }

  lemma MissProjects(db: Db, now: Instant, pid: string)
    requires Valid(db) && pid in db.pipelines
    ensures PipeOf(MissDb(db, now), pid) == MissPipe(PipeOf(db, pid), now)
  {
  }

  lemma FinishProjects(db: Db, id: string, status: RunStatus, error: Option<string>, now: Instant, pid: string)
    requires Valid(db) && pid in db.pipelines
    ensures PipeOf(FinishDb(db, id, status, error, now), pid) == FinishPipe(PipeOf(db, pid), id, status, error, now)
  {
    var before, after := PipeOf(db, pid), PipeOf(FinishDb(db, id, status, error, now), pid);
    assert after.cfg == FinishPipe(before, id, status, error, now).cfg;
    FinishedRuns(db, id, status, error, now, pid);
    FinishedRow(db, id, status, error, now, pid);
    hide FinishDb, FinishPipe, RunsOf;
  }

  lemma FinishedRuns(db: Db, id: string, status: RunStatus, error: Option<string>, now: Instant, pid: string)
    requires pid in db.pipelines
    ensures RunsOf(FinishDb(db, id, status, error, now).runs, pid) == FinishPipe(PipeOf(db, pid), id, status, error, now).runs
  {
    assert id in RunsOf(db.runs, pid) <==> id in db.runs && db.runs[id].pipelineId == pid;
    if id in db.runs && IsActive(db.runs[id].status) {
      RunsOfUpdated(db.runs, id, db.runs[id].(status := status, error := error, finishedAt := Some(now)), pid);
    }
    hide Finished, RunsOf, RowOf;
  }

  lemma RunsOfUpdated(runs: map<string, Run>, id: string, r: Run, pid: string)
    requires id in runs && r.pipelineId == runs[id].pipelineId
    ensures RunsOf(runs[id := r], pid) == if r.pipelineId == pid then RunsOf(runs, pid)[id := r] else RunsOf(runs, pid)
    ensures r.pipelineId == pid ==> id in RunsOf(runs, pid) && RunsOf(runs, pid)[id] == runs[id]
  {
  }

  lemma FinishedRow(db: Db, id: string, status: RunStatus, error: Option<string>, now: Instant, pid: string)
    requires pid in db.pipelines
    ensures RowOf(FinishDb(db, id, status, error, now).states, pid) == FinishPipe(PipeOf(db, pid), id, status, error, now).st
  {
    hide Finished;
  }

  lemma ConfigureProjects(db: Db, target: string, cfg: Config, pid: string)
    requires Valid(db) && pid in db.pipelines && target in db.pipelines
    ensures PipeOf(ConfigureDb(db, target, cfg), pid) == if pid == target then ConfigurePipe(PipeOf(db, pid), cfg) else PipeOf(db, pid)
  {
  }

  lemma CreateProjects(db: Db, id: string, run: Run, exclusive: bool, pid: string)
    requires pid in db.pipelines && id !in db.runs
    ensures PipeOf(CreateDb(db, id, run, exclusive), pid) ==
            if run.pipelineId == pid && CanCreate(PipeOf(db, pid), exclusive) then PipeOf(db, pid).(runs := PipeOf(db, pid).runs[id := run])
            else PipeOf(db, pid)
  {
    assert RunsOf(db.runs[id := run], pid) == if run.pipelineId == pid then RunsOf(db.runs, pid)[id := run] else RunsOf(db.runs, pid);
  }

  lemma MarkProjects(db: Db, id: string, worker: string, now: Instant, pid: string)
    requires pid in db.pipelines
    ensures PipeOf(MarkDb(db, id, worker, now), pid) == MarkPipe(PipeOf(db, pid), id, worker, now)
  {
    assert RunsOf(MarkDb(db, id, worker, now).runs, pid) == MarkPipe(PipeOf(db, pid), id, worker, now).runs;
  }

  lemma PruneProjects(db: Db, ids: set<string>, pid: string)
    requires pid in db.pipelines
    ensures PipeOf(db.(runs := Retained(db.runs, ids)), pid) == PrunePipe(PipeOf(db, pid), ids)
  {
  }

  lemma DeleteProjects(db: Db, target: string, pid: string)
    requires pid in db.pipelines
    ensures pid == target <==> pid !in DeleteDb(db, target).pipelines
    ensures pid != target ==> PipeOf(DeleteDb(db, target), pid) == PipeOf(db, pid)
  {
    if pid != target { assert RunsOf(DeleteDb(db, target).runs, pid) == RunsOf(db.runs, pid); }
  }

  lemma AddProjects(db: Db, target: string, workspace: string, name: string, pid: string)
    requires Valid(db) && target !in db.pipelines && (pid in db.pipelines || (pid == target && RunsOf(db.runs, pid) == map[]))
    ensures var after := AddDb(db, target, workspace, name);
            && (pid in db.pipelines ==> pid in after.pipelines && PipeOf(after, pid) == PipeOf(db, pid))
            && (pid !in db.pipelines && pid in after.pipelines ==> PipeOf(after, pid) == NEW_PIPE)
  {
  }

  // Retention takes runs that ended before the limit, and leaves one of these behind only when it has taken as many as
  // it may, each of which ended no later.
  lemma RetiredAreTheOldest(runs: map<string, Run>, before: Instant, limit: nat, retired: seq<string>, id: string)
    requires IsRetired(runs, before, limit, retired)
    ensures id in retired ==> id in runs && !IsActive(runs[id].status) && runs[id].finishedAt.Some? && runs[id].finishedAt.value < before
    ensures id in runs && !IsActive(runs[id].status) && runs[id].finishedAt.Some? && runs[id].finishedAt.value < before && id !in retired ==>
              && |retired| == limit
              && forall gone :: gone in retired ==> gone in runs && runs[gone].finishedAt.Some? &&
                                                    runs[gone].finishedAt.value <= runs[id].finishedAt.value
  {
    var ended :| NoDup(ended) && Sorted(ByKey(EndTimes(runs)), ended) && retired == Take(ended, limit) &&
                 forall x :: x in ended <==> x in runs && IsOld(runs[x], before);
    assert forall x :: x in retired ==> x in ended;
    if id in ended && id !in retired {
      var j :| 0 <= j < |ended| && ended[j] == id;
      forall gone | gone in retired
        ensures gone in runs && runs[gone].finishedAt.Some? && runs[gone].finishedAt.value <= runs[id].finishedAt.value
      {
        var i :| 0 <= i < |retired| && retired[i] == gone;
        assert ended[i] == gone && gone in ended && IsOld(runs[gone], before);
        assert i < j && ByKey(EndTimes(runs))(gone, id);
        assert KeyOf(EndTimes(runs), gone) == runs[gone].finishedAt.value && KeyOf(EndTimes(runs), id) == runs[id].finishedAt.value;
      }
    }
  }

  // A new pipeline is refused exactly when its workspace has one of that name, and is then not there.
  lemma AddIsRefusedIff(db: Db, pid: string, workspace: string, name: string)
    requires pid !in db.pipelines
    ensures pid !in AddDb(db, pid, workspace, name).pipelines <==>
            exists p :: p in db.pipelines.Values && p.workspace == workspace && p.name == name
    ensures var after := AddDb(db, pid, workspace, name).pipelines;
            pid in after ==> after[pid] == Pipeline(workspace, name, Config(None, None, false))
  {
    if NameTaken(db, workspace, name) {
      var other :| other in db.pipelines && db.pipelines[other].workspace == workspace && db.pipelines[other].name == name;
      assert db.pipelines[other] in db.pipelines.Values;
    }
  }

  // A claim takes timers that have come and follow-ups that nothing runs for, and nothing else; and as long as the
  // batch has room, all of them.
  lemma BatchTakesTheDue(db: Db, now: Instant, limit: nat, picked: seq<string>, pid: string)
    requires Valid(db) && IsBatch(db, now, limit, picked) && pid in db.states
    ensures var st := db.states[pid];
            var comes := st.fireAt.Some? && st.fireAt.value <= now;
            var owed := st.fireAt.None? && st.queued && forall id :: id in db.runs && db.runs[id].pipelineId == pid ==> !IsActive(db.runs[id].status);
            (pid in picked ==> comes || owed) && (|picked| < limit && (comes || owed) ==> pid in picked)
  {
    var due :| IsAllDue(db, now, due) && picked == Take(due, limit);
    assert |picked| < limit ==> picked == due;
    assert forall x :: x in picked ==> x in due;
    assert pid in due <==> IsDueIn(db, pid, now);
    ActiveOf(db.runs, pid);
  }

  lemma ActiveOf(runs: map<string, Run>, pid: string)
    ensures Active(RunsOf(runs, pid)) <==> exists id :: id in runs && runs[id].pipelineId == pid && IsActive(runs[id].status)
  {
    forall id | id in runs && runs[id].pipelineId == pid ensures id in RunsOf(runs, pid) && RunsOf(runs, pid)[id] == runs[id] {}
  }

  // A claim batch takes the soonest fires: what it leaves behind is due no sooner than anything it takes.
  lemma BatchTakesSoonest(db: Db, now: Instant, limit: nat, picked: seq<string>, taken: string, left: string)
    requires IsBatch(db, now, limit, picked) && taken in picked
    requires IsDueIn(db, left, now) && left !in picked && db.states[left].fireAt.Some?
    ensures taken in db.states && db.states[taken].fireAt.Some?
    ensures db.states[taken].fireAt.value < db.states[left].fireAt.value ||
            (db.states[taken].fireAt.value == db.states[left].fireAt.value && LexLeq(taken, left))
    ensures |picked| == limit
  {
    var due :| IsAllDue(db, now, due) && picked == Take(due, limit);
    var i :| 0 <= i < |picked| && picked[i] == taken;
    assert left in due;
    var j :| 0 <= j < |due| && due[j] == left;
    assert due[i] == taken && taken in due && IsDueIn(db, taken, now);
    var key := FireTimes(db.states);
    assert i < j && ByKey(key)(taken, left);
    assert KeyOf(key, taken) == db.states[taken].fireAt.value && KeyOf(key, left) == db.states[left].fireAt.value;
  }
}
