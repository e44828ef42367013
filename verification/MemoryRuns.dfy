// The in-memory store over a whole run: any operations of MemoryStore in any order, with the claimed fires that
// schedulers hold between a claim and the start or requeue that follows it (src/booth_pipeline/scheduler.py).
// Seen from one pipeline such a run is a run of AtomicStore, from the pipeline's creation on, so the results
// there and in TriggerProtocol hold of the class.
module MemoryRuns {
  import opened Basics
  import opened Triggers
  import opened AtomicStore
  import opened MemoryStore
  import P = TriggerProtocol

  // `owner` has the pipeline of every run id ever given out, `known` every pipeline id.
  datatype World = World(db: Db, flights: seq<(string, Fired)>, owner: map<string, string>, known: set<string>)

  datatype Event =
    | Plain(op: Op)
    | Started(flight: nat, id: string, run: Run, exclusive: bool)
    | Returned(flight: nat, now: Instant)
    | Lost(flight: nat)

  predicate FreshRun(w: World, id: string, run: Run) { id !in w.owner && run.pipelineId in w.known }

  // Ids are fresh, a claim takes a batch of what is due, and a fire is put back only by who holds it.
  ghost predicate Allowed(w: World, e: Event) {
    match e
    case Plain(Claim(now, picked)) => exists limit: nat :: IsBatch(w.db, now, limit, picked)
    case Plain(Requeue(_, _, _)) => false
    case Plain(Create(id, run, _)) => FreshRun(w, id, run) && run.triggerEvents.None?
    case Plain(Finish(_, status, _, _)) => !IsActive(status)
    case Plain(Add(pid, _, _)) => pid !in w.known
    case Plain(_) => true
    case Started(i, id, run, exclusive) =>
      && i < |w.flights| && FreshRun(w, id, run) && run.pipelineId == w.flights[i].0 && run.status == RunQueued
      && run.triggerEvents == Some(w.flights[i].1) && !Refused(w.db, run, exclusive)
    case Returned(i, _) => i < |w.flights|
    case Lost(i) => i < |w.flights|
  }

  function Claimed(db: Db, now: Instant, picked: seq<string>): seq<(string, Fired)> {
    if forall pid :: pid in picked ==> pid in db.pipelines then FiresDb(db, now, picked) else []
  }

  ghost function Next(w: World, e: Event): World
    requires Allowed(w, e)
  {
    match e
    case Plain(Claim(now, picked)) => w.(db := Do(w.db, e.op), flights := w.flights + Claimed(w.db, now, picked))
    case Plain(Create(id, run, exclusive)) =>
      if Refused(w.db, run, exclusive) then w else w.(db := Do(w.db, e.op), owner := w.owner[id := run.pipelineId])
    case Plain(Add(pid, _, _)) => w.(db := Do(w.db, e.op), known := w.known + {pid})
    case Plain(op) => w.(db := Do(w.db, op))
    case Started(i, id, run, exclusive) =>
      w.(db := CreateDb(w.db, id, run, exclusive), flights := Remove(w.flights, i), owner := w.owner[id := run.pipelineId])
    case Returned(i, now) =>
      w.(db := RequeueDb(w.db, w.flights[i].0, w.flights[i].1, now), flights := Remove(w.flights, i))
    case Lost(i) => w.(flights := Remove(w.flights, i))
  }

  const NEW_WORLD := World(Db(map[], map[], map[], map[]), [], map[], {})

  ghost predicate IsWorldRun(ws: seq<World>, es: seq<Event>) {
    && |ws| == |es| + 1 && ws[0] == NEW_WORLD
    && (forall i :: 0 <= i < |es| ==> Allowed(ws[i], es[i]) && ws[i + 1] == Next(ws[i], es[i]))
  }

  // ---- one pipeline's part ----

  function FlightsOf(flights: seq<(string, Fired)>, pid: string): seq<Fired> {
    if flights == [] then []
    else
      var n := |flights| - 1;
      FlightsOf(flights[..n], pid) + if flights[n].0 == pid then [flights[n].1] else []
  }

  function UsedBy(owner: map<string, string>, pid: string): set<string> { set id | id in owner && owner[id] == pid }

  function SysOf(w: World, pid: string): Sys
    requires pid in w.db.pipelines
  {
    Sys(PipeOf(w.db, pid), FlightsOf(w.flights, pid), UsedBy(w.owner, pid))
  }

  // Where flight i stands among the pipeline's own.
  function Rank(flights: seq<(string, Fired)>, i: nat, pid: string): nat
    requires i <= |flights|
  {
    |FlightsOf(flights[..i], pid)|
  }

  // What an event is to one pipeline, if anything.
  function StepFor(w: World, e: Event, pid: string): Option<Step>
    requires pid in w.db.pipelines
  {
    match e
    case Plain(Ingest(ev, sequence, now)) =>
      if Redelivered(w.db, sequence) || w.db.pipelines[pid].workspace != ev.workspace then None
      else Some(Step.Ingest(ev, now, Writer(w.db, ev) == Some(pid)))
    case Plain(Claim(now, picked)) => if pid in picked then Some(Step.Claim(now)) else None
    case Plain(Miss(now)) => Some(Step.Miss(now))
    case Plain(Create(id, run, exclusive)) =>
      if run.pipelineId == pid && !Refused(w.db, run, exclusive) then Some(Step.Create(id, run, exclusive)) else None
    case Plain(Mark(id, worker, now)) => Some(Step.Mark(id, worker, now))
    case Plain(Finish(id, status, error, now)) => Some(Step.Finish(id, status, error, now))
    case Plain(PruneRuns(ids)) => Some(Step.Prune(ids))
    case Plain(Configure(target, cfg)) => if target == pid then Some(Step.Configure(cfg)) else None
    case Plain(_) => None
    case Started(i, id, run, exclusive) =>
      if i < |w.flights| && w.flights[i].0 == pid then Some(StartFired(Rank(w.flights, i, pid), id, run, exclusive)) else None
    case Returned(i, now) =>
      if i < |w.flights| && w.flights[i].0 == pid then Some(ReturnFired(Rank(w.flights, i, pid), now)) else None
    case Lost(i) => if i < |w.flights| && w.flights[i].0 == pid then Some(LoseFired(Rank(w.flights, i, pid))) else None
  }

  ghost predicate Consistent(w: World) {
    && Valid(w.db) && w.db.pipelines.Keys <= w.known
    && (forall id :: id in w.db.runs ==> id in w.owner && w.owner[id] == w.db.runs[id].pipelineId)
    && (forall id :: id in w.owner ==> w.owner[id] in w.known)
    && (forall i :: 0 <= i < |w.flights| ==> w.flights[i].0 in w.known)
  }

  // ---- fires in flight ----

  lemma {:induction false} FlightsConcat(a: seq<(string, Fired)>, b: seq<(string, Fired)>, pid: string)
    ensures FlightsOf(a + b, pid) == FlightsOf(a, pid) + FlightsOf(b, pid)
  {
    if b == [] {
      assert a + b == a;
    } else {
      var n := |b| - 1;
      assert (a + b)[..|a + b| - 1] == a + b[..n];
      FlightsConcat(a, b[..n], pid);
    }
  }

  lemma FlightsOne(f: (string, Fired), pid: string)
    ensures FlightsOf([f], pid) == if f.0 == pid then [f.1] else []
  {
    assert FlightsOf([f][..0], pid) == [];
  }

  lemma FlightsRemove(flights: seq<(string, Fired)>, i: nat, pid: string)
    requires i < |flights|
    ensures var own, k := FlightsOf(flights, pid), Rank(flights, i, pid);
            if flights[i].0 == pid then k < |own| && own[k] == flights[i].1 && FlightsOf(Remove(flights, i), pid) == Remove(own, k)
            else FlightsOf(Remove(flights, i), pid) == own
  {
    hide FlightsOf;
    var before, after := flights[..i], flights[i + 1..];
    assert flights == before + ([flights[i]] + after);
    FlightsConcat(before, [flights[i]] + after, pid);
    FlightsConcat([flights[i]], after, pid);
    FlightsOne(flights[i], pid);
    FlightsConcat(before, after, pid);
    RemoveMiddle(FlightsOf(before, pid), flights[i].1, FlightsOf(after, pid));
    assert [] + FlightsOf(after, pid) == FlightsOf(after, pid);
  }

  lemma RemoveMiddle<T>(a: seq<T>, x: T, b: seq<T>)
    ensures Remove(a + ([x] + b), |a|) == a + b && (a + ([x] + b))[|a|] == x
  {
  }

  // Of a claimed batch a pipeline has the one fire its own claim gives.
  lemma {:induction false} FiresOfOne(db: Db, now: Instant, picked: seq<string>, pid: string)
    requires NoDup(picked) && pid in db.pipelines && forall p :: p in picked ==> p in db.pipelines
    ensures FlightsOf(FiresDb(db, now, picked), pid) ==
            if pid in picked && ClaimFire(PipeOf(db, pid), now).Some? then [ClaimFire(PipeOf(db, pid), now).value] else []
  {
    if picked != [] {
      var n := |picked| - 1;
      hide ClaimFire;
      FiresOfOne(db, now, picked[..n], pid);
      assert picked == picked[..n] + [picked[n]];
      assert pid == picked[n] ==> pid !in picked[..n];
      var fire := ClaimFire(PipeOf(db, picked[n]), now);
      if fire.Some? {
        FlightsConcat(FiresDb(db, now, picked[..n]), [(picked[n], fire.value)], pid);
        FlightsOne((picked[n], fire.value), pid);
      } else {
        assert FiresDb(db, now, picked) == FiresDb(db, now, picked[..n]);
      }
    }
  }

  // ---- every event is what it is to the pipeline ----

  // The event's effect on pid is the step, and the step is one AtomicStore allows.
  ghost predicate Projects(w: World, e: Event, pid: string)
    requires Allowed(w, e) && pid in w.db.pipelines
  {
    var s, step, w' := SysOf(w, pid), StepFor(w, e, pid), Next(w, e);
    && pid in w'.db.pipelines
    && (step.Some? ==> Enabled(s, step.value))
    && SysOf(w', pid) == if step.Some? then AtomicStore.Next(Memory, s, step.value) else s
  }

  lemma UsedByCreated(owner: map<string, string>, id: string, of: string, pid: string)
    requires id !in owner
    ensures UsedBy(owner[id := of], pid) == if of == pid then UsedBy(owner, pid) + {id} else UsedBy(owner, pid)
  {
  }

  lemma IngestIs(w: World, e: Event, pid: string)
    requires Consistent(w) && Allowed(w, e) && pid in w.db.pipelines && e.Plain? && e.op.Ingest?
    ensures Projects(w, e, pid)
  {
    if !Redelivered(w.db, e.op.sequence) { IngestProjects(w.db, e.op.ev, e.op.sequence, e.op.now, pid); }
    hide IngestPipe, IngestResults;
  }

  lemma BatchIsDue(db: Db, now: Instant, limit: nat, picked: seq<string>)
    requires IsBatch(db, now, limit, picked)
    ensures NoDup(picked) && forall pid :: pid in picked ==> pid in db.pipelines && pid in db.states && Picked(PipeOf(db, pid), now)
  {
    var due :| IsAllDue(db, now, due) && picked == Take(due, limit);
    assert forall pid :: pid in picked ==> pid in due;
    assert forall pid :: pid in due ==> IsDueIn(db, pid, now);
  }

  lemma ClaimIs(w: World, e: Event, pid: string)
    requires Consistent(w) && Allowed(w, e) && pid in w.db.pipelines && e.Plain? && e.op.Claim?
    ensures Projects(w, e, pid)
  {
    var now, picked := e.op.now, e.op.picked;
    var limit: nat :| IsBatch(w.db, now, limit, picked);
    BatchIsDue(w.db, now, limit, picked);
    ClaimedPart(w, now, picked, pid);
    hide ClaimPipe, ClaimFire, Picked, IsBatch, FiresDb, FlightsOf, PipeOf, ClaimDb, NoDup, UsedBy;
    assert Next(w, e) == w.(db := ClaimDb(w.db, now, picked), flights := w.flights + FiresDb(w.db, now, picked));
  }

  lemma ClaimedPart(w: World, now: Instant, picked: seq<string>, pid: string)
    requires Consistent(w) && pid in w.db.pipelines && NoDup(picked)
    requires forall p :: p in picked ==> p in w.db.pipelines && p in w.db.states
    ensures var s, fire := PipeOf(w.db, pid), ClaimFire(PipeOf(w.db, pid), now);
            && PipeOf(ClaimDb(w.db, now, picked), pid) == (if pid in picked then ClaimPipe(s, now) else s)
            && FlightsOf(w.flights + FiresDb(w.db, now, picked), pid) ==
               (if pid in picked && fire.Some? then FlightsOf(w.flights, pid) + [fire.value] else FlightsOf(w.flights, pid))
  {
    ClaimProjects(w.db, now, picked, pid);
    FlightsConcat(w.flights, FiresDb(w.db, now, picked), pid);
    FiresOfOne(w.db, now, picked, pid);
    hide ClaimPipe, ClaimFire, FiresDb, FlightsOf, PipeOf, ClaimDb;
    assert FlightsOf(w.flights, pid) + [] == FlightsOf(w.flights, pid);
  }

  lemma CreateIs(w: World, e: Event, pid: string)
    requires Consistent(w) && Allowed(w, e) && pid in w.db.pipelines && e.Plain? && e.op.Create?
    ensures Projects(w, e, pid)
  {
    NextCreate(w, e);
    CreatedPart(w, e.op.id, e.op.run, e.op.exclusive, pid);
    hide Active, UsedBy, FlightsOf, Refused, CanCreate, PipeOf, CreateDb, Consistent, Next, Do;
  }

  // What a creation is to one pipeline, and that the pipeline stays.
  lemma CreatedPart(w: World, id: string, run: Run, exclusive: bool, pid: string)
    requires Consistent(w) && pid in w.db.pipelines && id !in w.owner
    ensures var p, used, after := PipeOf(w.db, pid), UsedBy(w.owner, pid), CreateDb(w.db, id, run, exclusive);
            && id !in used && pid in after.pipelines
            && (run.pipelineId == pid ==> (Refused(w.db, run, exclusive) <==> !CanCreate(p, exclusive)))
            && PipeOf(after, pid) == (if run.pipelineId == pid && CanCreate(p, exclusive) then p.(runs := p.runs[id := run]) else p)
            && UsedBy(w.owner[id := run.pipelineId], pid) == (if run.pipelineId == pid then used + {id} else used)
  {
    CreateProjects(w.db, id, run, exclusive, pid);
    UsedByCreated(w.owner, id, run.pipelineId, pid);
    hide RunsOf, Active;
  }

  lemma NextCreate(w: World, e: Event)
    requires Allowed(w, e) && e.Plain? && e.op.Create?
    ensures Next(w, e) == if Refused(w.db, e.op.run, e.op.exclusive) then w
                          else w.(db := CreateDb(w.db, e.op.id, e.op.run, e.op.exclusive), owner := w.owner[e.op.id := e.op.run.pipelineId])
  {
    hide Refused, CreateDb;
  }

  lemma MarkIs(w: World, e: Event, pid: string)
    requires Consistent(w) && Allowed(w, e) && pid in w.db.pipelines && e.Plain? && e.op.Mark?
    ensures Projects(w, e, pid)
  {
    MarkProjects(w.db, e.op.id, e.op.worker, e.op.now, pid);
    assert MarkDb(w.db, e.op.id, e.op.worker, e.op.now).pipelines == w.db.pipelines;
    hide MarkDb, MarkPipe, PipeOf, UsedBy, FlightsOf;
  }

  lemma FinishIs(w: World, e: Event, pid: string)
    requires Consistent(w) && Allowed(w, e) && pid in w.db.pipelines && e.Plain? && e.op.Finish?
    ensures Projects(w, e, pid)
  {
    FinishProjects(w.db, e.op.id, e.op.status, e.op.error, e.op.now, pid);
    assert FinishDb(w.db, e.op.id, e.op.status, e.op.error, e.op.now).pipelines == w.db.pipelines;
    hide FinishDb, FinishPipe, PipeOf, UsedBy, FlightsOf;
  }

  lemma PruneIs(w: World, e: Event, pid: string)
    requires Consistent(w) && Allowed(w, e) && pid in w.db.pipelines && e.Plain? && (e.op.PruneRuns? || e.op.PruneSeen?)
    ensures Projects(w, e, pid)
  {
    if e.op.PruneRuns? { PruneProjects(w.db, e.op.ids, pid); }
    hide Retained, UsedBy, FlightsOf;
  }

  lemma MissIs(w: World, e: Event, pid: string)
    requires Consistent(w) && Allowed(w, e) && pid in w.db.pipelines && e.Plain? && e.op.Miss?
    ensures Projects(w, e, pid)
  {
    MissProjects(w.db, e.op.now, pid);
    hide MissPipe, PipeOf, UsedBy, FlightsOf, MissRow;
  }

  lemma ConfigureIs(w: World, e: Event, pid: string)
    requires Consistent(w) && Allowed(w, e) && pid in w.db.pipelines && e.Plain? && e.op.Configure?
    ensures Projects(w, e, pid)
  {
    if e.op.pid in w.db.pipelines { ConfigureProjects(w.db, e.op.pid, e.op.cfg, pid); }
    hide ConfigurePipe, PipeOf, UsedBy, FlightsOf;
  }

  lemma AddIs(w: World, e: Event, pid: string)
    requires Consistent(w) && Allowed(w, e) && pid in w.db.pipelines && e.Plain? && e.op.Add?
    ensures Projects(w, e, pid)
  {
    AddProjects(w.db, e.op.pid, e.op.workspace, e.op.name, pid);
    hide PipeOf, UsedBy, FlightsOf;
  }

  lemma DeleteIs(w: World, e: Event, pid: string)
    requires Consistent(w) && Allowed(w, e) && pid in w.db.pipelines && e.Plain? && e.op.Delete? && e.op.pid != pid
    ensures Projects(w, e, pid)
  {
    DeleteProjects(w.db, e.op.pid, pid);
    hide PipeOf, UsedBy, FlightsOf;
  }

  lemma StartedIs(w: World, e: Event, pid: string)
    requires Consistent(w) && Allowed(w, e) && pid in w.db.pipelines && e.Started?
    ensures Projects(w, e, pid)
  {
    FlightsRemove(w.flights, e.flight, pid);
    CreatedPart(w, e.id, e.run, e.exclusive, pid);
    hide Active, UsedBy, FlightsOf, Refused, CanCreate, PipeOf, CreateDb, Consistent;
  }

  lemma ReturnedIs(w: World, e: Event, pid: string)
    requires Consistent(w) && Allowed(w, e) && pid in w.db.pipelines && e.Returned?
    ensures Projects(w, e, pid)
  {
    FlightsRemove(w.flights, e.flight, pid);
    RequeueProjects(w.db, w.flights[e.flight].0, w.flights[e.flight].1, e.now, pid);
    hide RequeuePipe, FlightsOf, PipeOf, UsedBy;
  }

  lemma LostIs(w: World, e: Event, pid: string)
    requires Consistent(w) && Allowed(w, e) && pid in w.db.pipelines && e.Lost?
    ensures Projects(w, e, pid)
  {
    FlightsRemove(w.flights, e.flight, pid);
    hide FlightsOf, PipeOf, UsedBy;
  }

  lemma EventProjects(w: World, e: Event, pid: string)
    requires Consistent(w) && Allowed(w, e) && pid in w.db.pipelines && e != Plain(Delete(pid))
    ensures Projects(w, e, pid)
  {
    hide Projects, Consistent;
    match e
    case Started(_, _, _, _) => StartedIs(w, e, pid);
    case Returned(_, _) => ReturnedIs(w, e, pid);
    case Lost(_) => LostIs(w, e, pid);
    case Plain(op) =>
      match op
      case Ingest(_, _, _) => IngestIs(w, e, pid);
      case Claim(_, _) => ClaimIs(w, e, pid);
      case Requeue(_, _, _) =>
      case Create(_, _, _) => CreateIs(w, e, pid);
      case Mark(_, _, _) => MarkIs(w, e, pid);
      case Finish(_, _, _, _) => FinishIs(w, e, pid);
      case PruneRuns(_) => PruneIs(w, e, pid);
      case PruneSeen(_) => PruneIs(w, e, pid);
      case Miss(_) => MissIs(w, e, pid);
      case Configure(_, _) => ConfigureIs(w, e, pid);
      case Add(_, _, _) => AddIs(w, e, pid);
      case Delete(_) => DeleteIs(w, e, pid);
  }

  // ---- every state is consistent, and a new pipeline starts as AtomicStore's does ----

  lemma ConsistentRows(w: World, e: Event)
    requires Consistent(w) && Allowed(w, e) && e.Plain? && (e.op.Ingest? || e.op.Miss? || e.op.Mark? || e.op.PruneRuns? || e.op.PruneSeen?)
    ensures Consistent(Next(w, e))
  {
    hide IngestResult, MissRow;
  }

  lemma ConsistentPipelines(w: World, e: Event)
    requires Consistent(w) && Allowed(w, e) && e.Plain? && (e.op.Requeue? || e.op.Add? || e.op.Configure? || e.op.Delete?)
    ensures Consistent(Next(w, e))
  {
    hide ConfigurePipe, PipeOf;
  }

  lemma ConsistentRun(w: World, e: Event)
    requires Consistent(w) && Allowed(w, e) && ((e.Plain? && (e.op.Create? || e.op.Finish?)) || e.Started?)
    ensures Consistent(Next(w, e))
  {
    hide Active, RunsOf, Finished;
  }

  lemma {:induction false} FiresAreKnown(db: Db, now: Instant, picked: seq<string>)
    requires forall p :: p in picked ==> p in db.pipelines
    ensures forall i :: 0 <= i < |FiresDb(db, now, picked)| ==> FiresDb(db, now, picked)[i].0 in db.pipelines
  {
    if picked != [] {
      FiresAreKnown(db, now, picked[..|picked| - 1]);
      hide ClaimFire, PipeOf;
    }
  }

  lemma ConsistentClaim(w: World, e: Event)
    requires Consistent(w) && Allowed(w, e) && e.Plain? && e.op.Claim?
    ensures Consistent(Next(w, e))
  {
    var limit: nat :| IsBatch(w.db, e.op.now, limit, e.op.picked);
    BatchIsDue(w.db, e.op.now, limit, e.op.picked);
    FiresAreKnown(w.db, e.op.now, e.op.picked);
    hide IsBatch, FiresDb, ClaimRow, Picked, NoDup;
  }

  lemma ConsistentFlights(w: World, e: Event)
    requires Consistent(w) && Allowed(w, e) && (e.Returned? || e.Lost?)
    ensures Consistent(Next(w, e))
  {
    hide RequeuePipe;
  }

  lemma ConsistentNext(w: World, e: Event)
    requires Consistent(w) && Allowed(w, e)
    ensures Consistent(Next(w, e))
  {
    if e.Plain? && e.op.Claim? {
      ConsistentClaim(w, e);
    } else if (e.Plain? && (e.op.Create? || e.op.Finish?)) || e.Started? {
      ConsistentRun(w, e);
    } else if e.Plain? && (e.op.Requeue? || e.op.Add? || e.op.Configure? || e.op.Delete?) {
      ConsistentPipelines(w, e);
    } else if e.Plain? {
      ConsistentRows(w, e);
    } else {
      ConsistentFlights(w, e);
    }
  }

  lemma {:induction false} WorldsAreConsistent(ws: seq<World>, es: seq<Event>, k: nat)
    requires IsWorldRun(ws, es) && k < |ws|
    ensures Consistent(ws[k])
  {
    if k > 0 {
      WorldsAreConsistent(ws, es, k - 1);
      assert ws[k] == Next(ws[k - 1], es[k - 1]);
      ConsistentNext(ws[k - 1], es[k - 1]);
    }
  }

  lemma NamesStay(w: World, e: Event, pid: string)
    requires Allowed(w, e) && Consistent(w) && pid in w.db.pipelines && pid in Next(w, e).db.pipelines
    ensures Next(w, e).db.pipelines[pid].workspace == w.db.pipelines[pid].workspace
    ensures Next(w, e).db.pipelines[pid].name == w.db.pipelines[pid].name
  {
    if e.Plain? {
      DoKeepsNames(w.db, e.op, pid);
      hide Do;
    }
    hide IsBatch, FiresDb, Refused, RequeuePipe, PipeOf;
  }

  lemma DoKeepsNames(db: Db, op: Op, pid: string)
    requires pid in db.pipelines && pid in Do(db, op).pipelines && !(op.Add? && op.pid == pid)
    ensures Do(db, op).pipelines[pid].workspace == db.pipelines[pid].workspace && Do(db, op).pipelines[pid].name == db.pipelines[pid].name
  {
    hide IngestResults, ClaimRow, MissRow, RunsOf, RequeuePipe, ConfigurePipe, PipeOf, Refused, NameTaken;
  }

  ghost predicate NamesAreUnique(db: Db) {
    forall a, b :: a in db.pipelines && b in db.pipelines && a != b && db.pipelines[a].workspace == db.pipelines[b].workspace ==>
      db.pipelines[a].name != db.pipelines[b].name
  }

  lemma NewNameIsFree(w: World, e: Event, a: string, b: string)
    requires Allowed(w, e) && Consistent(w) && e.Plain? && e.op.Add? && e.op.pid == a && a !in w.db.pipelines
    requires a in Next(w, e).db.pipelines && b in w.db.pipelines && Next(w, e).db.pipelines[a].workspace == w.db.pipelines[b].workspace
    ensures Next(w, e).db.pipelines[a].name != w.db.pipelines[b].name
  {
  }

  // Over any run no two pipelines of a workspace have the same name.
  lemma {:induction false} WorldNamesAreUnique(ws: seq<World>, es: seq<Event>, k: nat)
    requires IsWorldRun(ws, es) && k < |ws|
    ensures NamesAreUnique(ws[k].db)
  {
    if k > 0 {
      WorldNamesAreUnique(ws, es, k - 1);
      WorldsAreConsistent(ws, es, k - 1);
      var w, e := ws[k - 1], es[k - 1];
      assert ws[k] == Next(w, e) && Allowed(w, e);
      var db := ws[k].db;
      hide Next, Allowed, Consistent, IsWorldRun;
      forall pid | pid in db.pipelines ensures pid in w.db.pipelines || (e.Plain? && e.op.Add? && e.op.pid == pid) {
        if pid !in w.db.pipelines { OnlyAddAdds(w, e, pid); }
      }
      forall pid | pid in db.pipelines && pid in w.db.pipelines
        ensures db.pipelines[pid].workspace == w.db.pipelines[pid].workspace && db.pipelines[pid].name == w.db.pipelines[pid].name
      {
        NamesStay(w, e, pid);
      }
      forall a, b | a in db.pipelines && b in db.pipelines && a != b && db.pipelines[a].workspace == db.pipelines[b].workspace
        ensures db.pipelines[a].name != db.pipelines[b].name
      {
        if a !in w.db.pipelines { NewNameIsFree(w, e, a, b); } else if b !in w.db.pipelines { NewNameIsFree(w, e, b, a); }
      }
    }
  }

  lemma {:induction false} NoFlights(flights: seq<(string, Fired)>, pid: string)
    requires forall i :: 0 <= i < |flights| ==> flights[i].0 != pid
    ensures FlightsOf(flights, pid) == []
  {
    if flights != [] { NoFlights(flights[..|flights| - 1], pid); }
  }

  lemma NewPipelineStarts(w: World, e: Event, pid: string)
    requires Consistent(w) && Allowed(w, e) && pid !in w.db.pipelines && pid in Next(w, e).db.pipelines
    ensures SysOf(Next(w, e), pid) == Sys(NEW_PIPE, [], {})
  {
    OnlyAddAdds(w, e, pid);
    NoFlights(w.flights, pid);
    assert RunsOf(w.db.runs, pid) == map[] && UsedBy(w.owner, pid) == {};
    AddProjects(w.db, pid, e.op.workspace, e.op.name, pid);
    hide PipeOf, RunsOf, UsedBy, FlightsOf, Consistent;
  }

  lemma DoAddsOnlyByAdd(db: Db, op: Op)
    requires !op.Add?
    ensures Do(db, op).pipelines.Keys <= db.pipelines.Keys
  {
    hide IngestResults, ClaimRow, MissRow, RunsOf, RequeuePipe, ConfigurePipe, PipeOf, Refused;
  }

  lemma OnlyAddAdds(w: World, e: Event, pid: string)
    requires Allowed(w, e) && pid !in w.db.pipelines && pid in Next(w, e).db.pipelines
    ensures e.Plain? && e.op.Add? && e.op.pid == pid
  {
    if e.Plain? && !e.op.Add? {
      DoAddsOnlyByAdd(w.db, e.op);
      hide Do;
    }
    hide IsBatch, FiresDb, Refused, RequeuePipe, PipeOf;
  }

  // ---- whole runs ----

  // From its creation at c on, state j of the world is state at[j - c] of the pipeline's own run.
  ghost predicate StateStands(ws: seq<World>, pid: string, c: nat, j: nat, states: seq<Sys>, at: seq<nat>)
    requires c <= j < |ws| && j - c < |at|
  {
    pid in ws[j].db.pipelines && at[j - c] < |states| && states[at[j - c]] == SysOf(ws[j], pid)
  }

  // Event j is the next step of it, or none.
  ghost predicate StepStands(ws: seq<World>, es: seq<Event>, pid: string, c: nat, j: nat, steps: seq<Step>, at: seq<nat>)
    requires c <= j < |ws| && j < |es| && j - c + 1 < |at| && pid in ws[j].db.pipelines
  {
    var step, n := StepFor(ws[j], es[j], pid), at[j - c];
    if step.Some? then n < |steps| && steps[n] == step.value && at[j - c + 1] == n + 1 else at[j - c + 1] == n
  }

  ghost predicate StandsFor(ws: seq<World>, es: seq<Event>, pid: string, c: nat, k: nat, states: seq<Sys>, steps: seq<Step>, at: seq<nat>)
    requires |ws| == |es| + 1 && k < |ws|
  {
    && c <= k && |at| == k - c + 1 && at[0] == 0 && at[k - c] == |steps| && |states| == |steps| + 1
    && (forall j :: c <= j <= k ==> StateStands(ws, pid, c, j, states, at))
    && (forall j :: c <= j < k ==> pid in ws[j].db.pipelines && StepStands(ws, es, pid, c, j, steps, at))
  }

  // For every pipeline a run of the in-memory store holds, what happens to it is a run of AtomicStore.
  lemma {:induction false} WorldFollowsAtomicStore(ws: seq<World>, es: seq<Event>, k: nat, pid: string)
    returns (c: nat, states: seq<Sys>, steps: seq<Step>, at: seq<nat>)
    requires IsWorldRun(ws, es) && k < |ws| && pid in ws[k].db.pipelines
    ensures AtomicStore.IsRun(Memory, states, steps) && StandsFor(ws, es, pid, c, k, states, steps, at)
  {
    assert k > 0;
    WorldsAreConsistent(ws, es, k - 1);
    var w, e := ws[k - 1], es[k - 1];
    assert ws[k] == Next(w, e) && Allowed(w, e);
    if pid !in w.db.pipelines {
      NewPipelineStarts(w, e, pid);
      c, states, steps, at := k, [SysOf(ws[k], pid)], [], [0];
    } else {
      c, states, steps, at := WorldFollowsAtomicStore(ws, es, k - 1, pid);
      assert e != Plain(Delete(pid));
      EventProjects(w, e, pid);
      states, steps, at := OneMore(ws, es, k, pid, c, states, steps, at);
    }
  }

  lemma OneMore(ws: seq<World>, es: seq<Event>, k: nat, pid: string, c: nat, states: seq<Sys>, steps: seq<Step>, at: seq<nat>)
    returns (states': seq<Sys>, steps': seq<Step>, at': seq<nat>)
    requires |ws| == |es| + 1 && 0 < k < |ws| && pid in ws[k - 1].db.pipelines && pid in ws[k].db.pipelines
    requires Allowed(ws[k - 1], es[k - 1]) && ws[k] == Next(ws[k - 1], es[k - 1]) && Projects(ws[k - 1], es[k - 1], pid)
    requires AtomicStore.IsRun(Memory, states, steps) && StandsFor(ws, es, pid, c, k - 1, states, steps, at)
    ensures AtomicStore.IsRun(Memory, states', steps') && StandsFor(ws, es, pid, c, k, states', steps', at')
  {
    hide SysOf, StepFor, AtomicStore.Next, AtomicStore.Enabled, Next, Allowed, StandsFor;
    var step, s := StepFor(ws[k - 1], es[k - 1], pid), SysOf(ws[k - 1], pid);
    LastStands(ws, es, pid, c, k - 1, states, steps, at);
    states', steps' := states, steps;
    if step.Some? {
      states', steps' := states + [AtomicStore.Next(Memory, s, step.value)], steps + [step.value];
    }
    at' := StandsOnce(ws, es, k, pid, c, states, steps, at, states', steps');
  }

  lemma StandsOnce(ws: seq<World>, es: seq<Event>, k: nat, pid: string, c: nat, states: seq<Sys>, steps: seq<Step>, at: seq<nat>,
                   states': seq<Sys>, steps': seq<Step>)
    returns (at': seq<nat>)
    requires |ws| == |es| + 1 && 0 < k < |ws| && pid in ws[k - 1].db.pipelines && pid in ws[k].db.pipelines
    requires StandsFor(ws, es, pid, c, k - 1, states, steps, at) && |states'| == |steps'| + 1
    requires states <= states' && states'[|steps'|] == SysOf(ws[k], pid)
    requires var step := StepFor(ws[k - 1], es[k - 1], pid); steps' == if step.Some? then steps + [step.value] else steps
    ensures StandsFor(ws, es, pid, c, k, states', steps', at')
  {
    hide StateStands, StepStands, SysOf, StepFor;
    at' := at + [|steps'|];
    forall j | c <= j <= k ensures StateStands(ws, pid, c, j, states', at') {
      if j < k {
        assert StateStands(ws, pid, c, j, states, at);
        StateStillStands(ws, pid, c, j, states, at, states', at');
      } else {
        LastStateStands(ws, pid, c, k, states', at');
      }
    }
    forall j | c <= j < k ensures pid in ws[j].db.pipelines && StepStands(ws, es, pid, c, j, steps', at') {
      if j < k - 1 {
        assert StepStands(ws, es, pid, c, j, steps, at);
        StepStillStands(ws, es, pid, c, j, steps, at, steps', at');
      } else {
        LastStepStands(ws, es, pid, c, j, steps, steps', at');
      }
    }
  }

  lemma StateStillStands(ws: seq<World>, pid: string, c: nat, j: nat, states: seq<Sys>, at: seq<nat>, states': seq<Sys>, at': seq<nat>)
    requires c <= j < |ws| && j - c < |at| && StateStands(ws, pid, c, j, states, at)
    requires states <= states' && at <= at'
    ensures StateStands(ws, pid, c, j, states', at')
  {
    hide SysOf;
    assert at'[j - c] == at[j - c];
  }

  lemma LastStateStands(ws: seq<World>, pid: string, c: nat, k: nat, states: seq<Sys>, at: seq<nat>)
    requires c <= k < |ws| && k - c < |at| && pid in ws[k].db.pipelines
    requires at[k - c] < |states| && states[at[k - c]] == SysOf(ws[k], pid)
    ensures StateStands(ws, pid, c, k, states, at)
  {
    hide SysOf;
  }

  lemma StepStillStands(ws: seq<World>, es: seq<Event>, pid: string, c: nat, j: nat, steps: seq<Step>, at: seq<nat>,
                        steps': seq<Step>, at': seq<nat>)
    requires c <= j < |ws| && j < |es| && j - c + 1 < |at| && pid in ws[j].db.pipelines && StepStands(ws, es, pid, c, j, steps, at)
    requires steps <= steps' && at <= at'
    ensures StepStands(ws, es, pid, c, j, steps', at')
  {
    hide StepFor;
    assert at'[j - c] == at[j - c] && at'[j - c + 1] == at[j - c + 1];
  }

  lemma LastStepStands(ws: seq<World>, es: seq<Event>, pid: string, c: nat, j: nat, steps: seq<Step>, steps': seq<Step>, at: seq<nat>)
    requires c <= j < |ws| && j < |es| && |at| == j - c + 2 && pid in ws[j].db.pipelines
    requires var step := StepFor(ws[j], es[j], pid); steps' == if step.Some? then steps + [step.value] else steps
    requires at[j - c] == |steps| && at[j - c + 1] == |steps'|
    ensures StepStands(ws, es, pid, c, j, steps', at)
  {
    hide StepFor;
  }

  lemma LastStands(ws: seq<World>, es: seq<Event>, pid: string, c: nat, k: nat, states: seq<Sys>, steps: seq<Step>, at: seq<nat>)
    requires |ws| == |es| + 1 && k < |ws| && StandsFor(ws, es, pid, c, k, states, steps, at)
    ensures c <= k && k - c < |at| && at[k - c] == |steps| < |states| && pid in ws[k].db.pipelines && states[|steps|] == SysOf(ws[k], pid)
  {
    hide SysOf, StepStands;
    assert StateStands(ws, pid, c, k, states, at);
  }

  // ---- so, in every state of the class ----

  // Whatever a pipeline of the store has to deliver has something that will deliver it.
  lemma EveryRowIsAwake(ws: seq<World>, es: seq<Event>, k: nat, pid: string)
    requires IsWorldRun(ws, es) && k < |ws| && pid in ws[k].db.pipelines
    ensures P.Awake(Row(PipeOf(ws[k].db, pid)))
  {
    var c, states, steps, at := WorldFollowsAtomicStore(ws, es, k, pid);
    LastStands(ws, es, pid, c, k, states, steps, at);
    ReachableStatesAreAwake(Memory, states, steps, |steps|);
  }

  predicate IngestedBefore(es: seq<Event>, k: nat, ev: TriggerEvent)
    requires k <= |es|
  {
    exists j :: 0 <= j < k && es[j].Plain? && es[j].op.Ingest? && es[j].op.ev == ev
  }

  // A run of the store that an event fired was told a burst of events its pipeline heard since it was created:
  // the first 100 in burst order, and how many there were.
  lemma EveryRunIsToldItsBurst(ws: seq<World>, es: seq<Event>, k: nat, id: string) returns (burst: seq<P.Token>, log: seq<TriggerEvent>)
    requires IsWorldRun(ws, es) && k < |ws| && id in ws[k].db.runs && ws[k].db.runs[id].triggerEvents.Some?
    requires ws[k].db.runs[id].pipelineId in ws[k].db.pipelines
    ensures P.Tells(ws[k].db.runs[id].triggerEvents.value.events, ws[k].db.runs[id].triggerEvents.value.count, burst, log)
    ensures forall n :: 0 <= n < |log| ==> IngestedBefore(es, k, log[n])
  {
    var pid := ws[k].db.runs[id].pipelineId;
    var c, states, steps, at := WorldFollowsAtomicStore(ws, es, k, pid);
    LastStands(ws, es, pid, c, k, states, steps, at);
    assert states[|steps|].pipe.runs[id] == ws[k].db.runs[id];
    burst := StoredRunsAreToldTheirBurst(Memory, states, steps, |steps|, id);
    log := Heard(states, steps, at[k - c]);
    HeardWereIngested(ws, es, pid, c, k, states, steps, at, log);
  }

  lemma {:induction false} HeardIsStepped(states: seq<Sys>, steps: seq<Step>, n: nat, ev: TriggerEvent)
    requires |states| == |steps| + 1 && n <= |steps| && ev in Heard(states, steps, n)
    ensures exists m :: 0 <= m < n && steps[m].Ingest? && steps[m].ev == ev
  {
    if !(Hears(states[n - 1], steps[n - 1]) && steps[n - 1].ev == ev) { HeardIsStepped(states, steps, n - 1, ev); }
  }

  lemma HeardWereIngested(ws: seq<World>, es: seq<Event>, pid: string, c: nat, k: nat, states: seq<Sys>, steps: seq<Step>, at: seq<nat>,
                          log: seq<TriggerEvent>)
    requires |ws| == |es| + 1 && k < |ws| && StandsFor(ws, es, pid, c, k, states, steps, at) && log == Heard(states, steps, at[k - c])
    ensures forall n :: 0 <= n < |log| ==> IngestedBefore(es, k, log[n])
  {
    forall n | 0 <= n < |log| ensures IngestedBefore(es, k, log[n]) {
      var ev := log[n];
      HeardIsStepped(states, steps, at[k - c], ev);
      var m :| 0 <= m < at[k - c] && steps[m].Ingest? && steps[m].ev == ev;
      SteppedByEvent(ws, es, pid, c, k, states, steps, at, k, m);
      var i :| c <= i < k && StepFor(ws[i], es[i], pid) == Some(steps[m]);
      assert es[i].Plain? && es[i].op.Ingest? && es[i].op.ev == ev;
    }
  }

  // Every step of the pipeline's run is some event's.
  lemma {:induction false} SteppedByEvent(ws: seq<World>, es: seq<Event>, pid: string, c: nat, k: nat, states: seq<Sys>, steps: seq<Step>,
                                          at: seq<nat>, j: nat, m: nat)
    requires |ws| == |es| + 1 && k < |ws| && StandsFor(ws, es, pid, c, k, states, steps, at) && c <= j <= k
    requires m < |steps| && m < at[j - c]
    ensures exists i :: c <= i < j && StepFor(ws[i], es[i], pid) == Some(steps[m])
  {
    hide StepFor, SysOf, StateStands;
    assert StepStands(ws, es, pid, c, j - 1, steps, at);
    if m < at[j - 1 - c] {
      SteppedByEvent(ws, es, pid, c, k, states, steps, at, j - 1, m);
    } else {
      assert at[j - 1 - c + 1] == at[j - c];
      assert StepFor(ws[j - 1], es[j - 1], pid) == Some(steps[m]);
    }
  }

  predicate CreatesExclusivelyFor(e: Event, pid: string) {
    match e
    case Plain(Create(_, run, exclusive)) => run.pipelineId == pid && IsActive(run.status) ==> exclusive
    case Started(_, _, run, exclusive) => run.pipelineId == pid ==> exclusive
    case _ => true
  }

  lemma StepIsExclusive(w: World, e: Event, pid: string)
    requires Allowed(w, e) && pid in w.db.pipelines && CreatesExclusivelyFor(e, pid)
    ensures var step := StepFor(w, e, pid); step.Some? ==> CreatesExclusively(step.value)
  {
    hide IsBatch, Refused, Redelivered, FlightsOf;
  }

  // While a pipeline's runs are created exclusively it has at most one that is queued or running, whatever
  // happens to the other pipelines.
  lemma OneActiveRunEach(ws: seq<World>, es: seq<Event>, k: nat, pid: string)
    requires IsWorldRun(ws, es) && k < |ws| && pid in ws[k].db.pipelines
    requires forall j :: 0 <= j < |es| ==> CreatesExclusivelyFor(es[j], pid)
    ensures AtMostOneActive(RunsOf(ws[k].db.runs, pid))
  {
    hide StandsFor, StepFor, CreatesExclusively, CreatesExclusivelyFor, Allowed;
    var c, states, steps, at := WorldFollowsAtomicStore(ws, es, k, pid);
    LastStands(ws, es, pid, c, k, states, steps, at);
    forall m | 0 <= m < |steps| ensures CreatesExclusively(steps[m]) {
      SteppedByEvent(ws, es, pid, c, k, states, steps, at, k, m);
      var i :| c <= i < k && StepFor(ws[i], es[i], pid) == Some(steps[m]);
      StepIsExclusive(ws[i], es[i], pid);
    }
    hide AtMostOneActive;
    AtMostOneActiveRun(Memory, states, steps, |steps|);
  }

  // ---- conservation over whole runs of the class ----

  // A step of the pipeline's own machine takes an event in.
  predicate HearsFor(w: World, e: Event, pid: string) {
    pid in w.db.pipelines && var step := StepFor(w, e, pid); step.Some? && Hears(SysOf(w, pid), step.value)
  }

  // How many events of a pipeline, there or deleted, its row accounts for and the fires in flight carry.
  function KeptFor(w: World, pid: string): nat {
    (if pid in w.db.pipelines then RowKept(Row(PipeOf(w.db, pid))) else 0) + Counts(FlightsOf(w.flights, pid))
  }

  // How many leave with an event: with a created run or for good as for the pipeline alone; with the row when the
  // pipeline is deleted, which takes its counters along; and with each fire in flight that outlived its pipeline.
  ghost function LeavingFor(w: World, e: Event, pid: string): nat
    requires Consistent(w) && Allowed(w, e)
  {
    if pid !in w.db.pipelines then (if !e.Plain? && w.flights[e.flight].0 == pid then w.flights[e.flight].1.count else 0)
    else if e == Plain(Delete(pid)) then RowKept(Row(PipeOf(w.db, pid)))
    else
      EventProjects(w, e, pid);
      var step := StepFor(w, e, pid);
      if step.Some? then Leaving(Memory, SysOf(w, pid), step.value) else 0
  }

  ghost predicate AllConsistent(ws: seq<World>, es: seq<Event>) {
    |ws| == |es| + 1 && forall i :: 0 <= i < |es| ==> Consistent(ws[i]) && Allowed(ws[i], es[i])
  }

  function HeardFor(ws: seq<World>, es: seq<Event>, k: nat, pid: string): nat
    requires k <= |es| && |ws| == |es| + 1
  {
    if k == 0 then 0 else HeardFor(ws, es, k - 1, pid) + if HearsFor(ws[k - 1], es[k - 1], pid) then 1 else 0
  }

  ghost function LeftFor(ws: seq<World>, es: seq<Event>, k: nat, pid: string): nat
    requires k <= |es| && AllConsistent(ws, es)
  {
    if k == 0 then 0 else LeftFor(ws, es, k - 1, pid) + LeavingFor(ws[k - 1], es[k - 1], pid)
  }

  lemma KeptIsKept(w: World, pid: string)
    requires pid in w.db.pipelines
    ensures KeptFor(w, pid) == Kept(SysOf(w, pid))
  {
    hide RowKept, Row, Counts, PipeOf, FlightsOf, UsedBy;
  }

  lemma KeptAlive(w: World, e: Event, pid: string)
    requires Consistent(w) && Allowed(w, e) && pid in w.db.pipelines && e != Plain(Delete(pid))
    ensures KeptFor(Next(w, e), pid) + LeavingFor(w, e, pid) == KeptFor(w, pid) + if HearsFor(w, e, pid) then 1 else 0
  {
    hide KeptFor, Kept, Next, StepFor, SysOf, AtomicStore.Next, AtomicStore.Enabled, Hears, Leaving, Consistent, Allowed;
    EventProjects(w, e, pid);
    KeptIsKept(w, pid);
    KeptIsKept(Next(w, e), pid);
    var s, step := SysOf(w, pid), StepFor(w, e, pid);
    if step.Some? { KeptNext(Memory, s, step.value); }
  }

  lemma KeptDeleted(w: World, pid: string)
    requires Consistent(w) && pid in w.db.pipelines
    ensures KeptFor(Next(w, Plain(Delete(pid))), pid) + LeavingFor(w, Plain(Delete(pid)), pid) == KeptFor(w, pid)
    ensures !HearsFor(w, Plain(Delete(pid)), pid)
  {
    hide RowKept, Row, Counts, PipeOf, FlightsOf;
  }

  lemma FlightsWhenGone(w: World, e: Event, pid: string)
    requires Consistent(w) && Allowed(w, e) && pid !in w.db.pipelines && e.Plain?
    ensures FlightsOf(Next(w, e).flights, pid) == FlightsOf(w.flights, pid)
  {
    if e.op.Claim? {
      var limit: nat :| IsBatch(w.db, e.op.now, limit, e.op.picked);
      BatchIsDue(w.db, e.op.now, limit, e.op.picked);
      FiresAreKnown(w.db, e.op.now, e.op.picked);
      NoFlights(FiresDb(w.db, e.op.now, e.op.picked), pid);
      FlightsConcat(w.flights, FiresDb(w.db, e.op.now, e.op.picked), pid);
      hide IsBatch, FiresDb, FlightsOf, Picked, ClaimDb, NoDup;
      assert FlightsOf(w.flights, pid) + [] == FlightsOf(w.flights, pid);
    } else {
      hide Do, FlightsOf, IsBatch;
    }
  }

  lemma KeptNotThere(w: World, pid: string)
    requires pid !in w.db.pipelines
    ensures KeptFor(w, pid) == Counts(FlightsOf(w.flights, pid))
  {
  }

  lemma NothingKept()
    ensures Kept(Sys(NEW_PIPE, [], {})) == 0
  {
  }

  lemma KeptAtFirst(w: World, pid: string)
    requires pid in w.db.pipelines && SysOf(w, pid) == Sys(NEW_PIPE, [], {})
    ensures FlightsOf(w.flights, pid) == [] && KeptFor(w, pid) == 0
  {
    NothingKept();
    KeptIsKept(w, pid);
    hide PipeOf, KeptFor, Kept, UsedBy;
  }

  // A new pipeline has an empty row, and an id no fire carries.
  lemma KeptWhenGone(w: World, e: Event, pid: string)
    requires Consistent(w) && Allowed(w, e) && pid !in w.db.pipelines && e.Plain?
    ensures KeptFor(Next(w, e), pid) == KeptFor(w, pid)
  {
    FlightsWhenGone(w, e, pid);
    hide PipeOf, FlightsOf, RowKept, Row, Next, Allowed, Consistent, KeptFor, SysOf;
    KeptNotThere(w, pid);
    if pid in Next(w, e).db.pipelines {
      NewPipelineStarts(w, e, pid);
      KeptAtFirst(Next(w, e), pid);
    } else {
      KeptNotThere(Next(w, e), pid);
    }
  }

  lemma KeptFlightGone(w: World, e: Event, pid: string)
    requires Consistent(w) && Allowed(w, e) && pid !in w.db.pipelines && !e.Plain?
    ensures KeptFor(Next(w, e), pid) + LeavingFor(w, e, pid) == KeptFor(w, pid)
  {
    FlightsRemove(w.flights, e.flight, pid);
    assert Next(w, e).flights == Remove(w.flights, e.flight) && pid !in Next(w, e).db.pipelines by {
      hide FlightsOf, RequeuePipe, PipeOf, Refused;
    }
    if w.flights[e.flight].0 == pid { CountsRemove(FlightsOf(w.flights, pid), Rank(w.flights, e.flight, pid)); }
    hide Counts, FlightsOf, Next, Allowed, Consistent, Rank;
  }

  lemma KeptForNext(w: World, e: Event, pid: string)
    requires Consistent(w) && Allowed(w, e)
    ensures KeptFor(Next(w, e), pid) + LeavingFor(w, e, pid) == KeptFor(w, pid) + if HearsFor(w, e, pid) then 1 else 0
  {
    hide KeptFor, Next, Consistent, StepFor, SysOf;
    if pid in w.db.pipelines {
      if e == Plain(Delete(pid)) { KeptDeleted(w, pid); } else { KeptAlive(w, e, pid); }
    } else if e.Plain? {
      KeptWhenGone(w, e, pid);
    } else {
      KeptFlightGone(w, e, pid);
    }
  }

  lemma WorldsAreFine(ws: seq<World>, es: seq<Event>)
    requires IsWorldRun(ws, es)
    ensures AllConsistent(ws, es)
  {
    hide Consistent, Allowed, Next;
    forall i | 0 <= i < |es| ensures Consistent(ws[i]) && Allowed(ws[i], es[i]) { WorldsAreConsistent(ws, es, i); }
  }

  // Over any run of the class, and through the deletion of the pipeline: every event a pipeline took in was an own
  // run's, was skipped, is pending, is in flight, left with a run or for good, or went with its row.
  lemma {:induction false} WorldEventsAddUp(ws: seq<World>, es: seq<Event>, k: nat, pid: string)
    requires IsWorldRun(ws, es) && k <= |es|
    ensures AllConsistent(ws, es) && HeardFor(ws, es, k, pid) == KeptFor(ws[k], pid) + LeftFor(ws, es, k, pid)
  {
    WorldsAreFine(ws, es);
    if k > 0 {
      hide Consistent, Allowed, Next, KeptFor, LeavingFor, HearsFor;
      WorldEventsAddUp(ws, es, k - 1, pid);
      assert ws[k] == Next(ws[k - 1], es[k - 1]);
      KeptForNext(ws[k - 1], es[k - 1], pid);
    }
  }

  // ---- finality over whole runs of the class ----

  predicate WinsIn(w: World, e: Event, id: string) { e.Plain? && e.op.Finish? && e.op.id == id && id in w.db.runs && IsActive(w.db.runs[id].status) }

  // A run that has ended: its id is taken, and its record, if still there, is this one.
  predicate Ended(w: World, id: string, record: Run) {
    id in w.owner && !IsActive(record.status) && (id in w.db.runs ==> w.db.runs[id] == record)
  }

  lemma EndedStaysPlain(w: World, op: Op, id: string, record: Run)
    requires Allowed(w, Plain(op)) && Ended(w, id, record)
    ensures Ended(Next(w, Plain(op)), id, record)
  {
    hide IngestResults, IsBatch, FiresDb, ClaimRow, MissRow, RequeuePipe, ConfigurePipe, PipeOf, RunsOf, Finished;
  }

  lemma EndedStays(w: World, e: Event, id: string, record: Run)
    requires Allowed(w, e) && Ended(w, id, record)
    ensures Ended(Next(w, e), id, record)
  {
    if e.Plain? {
      EndedStaysPlain(w, e.op, id, record);
    } else {
      hide RequeuePipe, PipeOf, RunsOf, FlightsOf;
    }
  }

  lemma EndedHere(w: World, id: string)
    requires Consistent(w) && id in w.db.runs && !IsActive(w.db.runs[id].status)
    ensures Ended(w, id, w.db.runs[id])
  {
  }

  // A terminal run's record never changes again, whatever happens to its pipeline; it can only go.
  lemma {:induction false} WorldTerminalIsFinal(ws: seq<World>, es: seq<Event>, i: nat, k: nat, id: string)
    requires IsWorldRun(ws, es) && i <= k < |ws| && id in ws[i].db.runs && !IsActive(ws[i].db.runs[id].status)
    ensures Ended(ws[k], id, ws[i].db.runs[id])
    decreases k
  {
    hide Next, Allowed, Ended, Consistent, IsActive;
    if k == i {
      WorldsAreConsistent(ws, es, i);
      EndedHere(ws[i], id);
    } else {
      WorldTerminalIsFinal(ws, es, i, k - 1, id);
      assert ws[k] == Next(ws[k - 1], es[k - 1]);
      EndedStays(ws[k - 1], es[k - 1], id, ws[i].db.runs[id]);
    }
  }

  // No two finishes of a run both win.
  lemma WorldOneFinishWins(ws: seq<World>, es: seq<Event>, i: nat, j: nat, id: string)
    requires IsWorldRun(ws, es) && i < |es| && j < |es| && WinsIn(ws[i], es[i], id) && WinsIn(ws[j], es[j], id)
    ensures i == j
  {
    var a, b := if i < j then i else j, if i < j then j else i;
    if a < b {
      assert ws[a + 1] == Next(ws[a], es[a]);
      WinnerEnds(ws[a], es[a], id);
      hide Next, Allowed;
      WorldTerminalIsFinal(ws, es, a + 1, b, id);
    }
  }

  lemma WinnerEnds(w: World, e: Event, id: string)
    requires Allowed(w, e) && WinsIn(w, e, id)
    ensures id in Next(w, e).db.runs && !IsActive(Next(w, e).db.runs[id].status)
  {
    hide Finished;
  }
}
