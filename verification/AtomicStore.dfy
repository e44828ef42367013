// What each store operation does to one pipeline (its settings, its trigger row, its runs), and what every
// reachable state then has. Operations are atomic here, as in the memory store, whose methods run under one
// lock; PostgresStore splits them. The steps are those of all actors at once: bus consumer, schedulers of all
// replicas (a claim and the start or requeue that follows it are separate steps), workers, sweeps, editors.
module AtomicStore {
  import opened Basics
  import opened Triggers
  import P = TriggerProtocol
  import Debounce
  import O = Outages

  datatype RunStatus = RunQueued | Running | Succeeded | Failed | Canceled | RunSkipped

  predicate IsActive(s: RunStatus) { s == RunQueued || s == Running }

  datatype Run = Run(
    pipelineId: string, status: RunStatus, createdAt: Instant, startedAt: Option<Instant>, finishedAt: Option<Instant>,
    error: Option<string>, workerId: Option<string>, heartbeatAt: Option<Instant>, triggerEvents: Option<Fired>,
    scheduledFor: Option<Instant>)

  // The settings an event trigger depends on.
  datatype Config = Config(trigger: Option<EventTrigger>, since: Option<Instant>, concurrent: bool)

  predicate Watching(cfg: Config) { cfg.trigger.Some? && cfg.trigger.value.enabled }

  // One pipeline: `st` is its trigger row, created when first needed.
  datatype Pipe = Pipe(cfg: Config, st: Option<State>, runs: map<string, Run>)

  predicate Active(runs: map<string, Run>) { exists id :: id in runs && IsActive(runs[id].status) }

  function Row(p: Pipe): State { p.st.GetOr(EMPTY) }

  // The two stores differ in one guard: PostgreSQL ignores a requeue for a disabled trigger.
  datatype StoreKind = Memory | Postgres

  predicate TakesRequeue(kind: StoreKind, cfg: Config) {
    cfg.trigger.Some? && (kind == Memory || cfg.trigger.value.enabled)
  }

  function OutcomeAt(p: Pipe, ownRun: bool): Outcome
    requires p.cfg.trigger.Some?
  {
    IngestOutcome(p.cfg.trigger.value, ownRun, Active(p.runs), p.cfg.concurrent)
  }

  function IngestPipe(p: Pipe, ev: TriggerEvent, now: Instant, ownRun: bool): Pipe {
    if Watching(p.cfg) && Concerns(p.cfg.trigger.value, p.cfg.since, ev)
    then p.(st := Some(Ingested(Row(p), p.cfg.trigger.value, ev, now, OutcomeAt(p, ownRun))))
    else p
  }

  // Whether the claim picks this pipeline: a due fire, or a follow-up that no ended run released.
  predicate Picked(p: Pipe, now: Instant) {
    p.st.Some? && P.Claimable(p.st.value, now) && (p.st.value.fireAt.None? ==> !Active(p.runs))
  }

  function ClaimPipe(p: Pipe, now: Instant): Pipe {
    if Picked(p, now) && Watching(p.cfg)
    then p.(st := Some(P.ClaimedRow(p.st.value, p.cfg.trigger.value, now, StartsNow(Active(p.runs), p.cfg.concurrent))))
    else p
  }

  function ClaimFire(p: Pipe, now: Instant): Option<Fired> {
    if Picked(p, now) && Watching(p.cfg)
    then P.ClaimedFire(p.st.value, p.cfg.trigger.value, now, StartsNow(Active(p.runs), p.cfg.concurrent))
    else None
  }

  function RequeuePipe(kind: StoreKind, p: Pipe, fired: Fired, now: Instant): Pipe {
    if p.st.Some? && TakesRequeue(kind, p.cfg)
    then p.(st := Some(P.RequeuedRow(p.st.value, p.cfg.trigger.value, fired, now, !Active(p.runs))))
    else p
  }

  function MissPipe(p: Pipe, now: Instant): Pipe {
    if Watching(p.cfg) then p.(st := Some(Missed(Row(p), p.cfg.trigger.value, now))) else p
  }

  function ConfigurePipe(p: Pipe, cfg: Config): Pipe {
    p.(cfg := cfg, st := if !Watching(cfg) && p.st.Some? then Some(Reset(p.st.value)) else p.st)
  }

  // The first writer wins: only an active run can be finished.
  predicate Wins(p: Pipe, id: string) { id in p.runs && IsActive(p.runs[id].status) }

  function FinishPipe(p: Pipe, id: string, status: RunStatus, error: Option<string>, now: Instant): Pipe {
    if !Wins(p, id) then p
    else
      var q := p.(runs := p.runs[id := p.runs[id].(status := status, error := error, finishedAt := Some(now))]);
      if p.st.Some? && Watching(p.cfg) then q.(st := Some(Finished(p.st.value, p.cfg.trigger.value, now))) else q
  }

  // An exclusive creation is refused while a run is active.
  predicate CanCreate(p: Pipe, exclusive: bool) { exclusive ==> !Active(p.runs) }

  function MarkPipe(p: Pipe, id: string, worker: string, now: Instant): Pipe {
    if id in p.runs && p.runs[id].status == RunQueued
    then p.(runs := p.runs[id := p.runs[id].(status := Running, startedAt := Some(now), workerId := Some(worker), heartbeatAt := Some(now))])
    else p
  }

  // Retention deletes finished runs only.
  function Retained(runs: map<string, Run>, ids: set<string>): map<string, Run> {
    map id | id in runs && (id !in ids || IsActive(runs[id].status)) :: runs[id]
  }

  function PrunePipe(p: Pipe, ids: set<string>): Pipe { p.(runs := Retained(p.runs, ids)) }

  // ---- the system around one pipeline ----

  // `flights` are the claimed fires some scheduler holds; `used` are the run ids ever given out (uuid4).
  datatype Sys = Sys(pipe: Pipe, flights: seq<Fired>, used: set<string>)

  datatype Step =
    | Ingest(ev: TriggerEvent, now: Instant, ownRun: bool)
    | Claim(now: Instant)
    | StartFired(flight: nat, id: string, run: Run, exclusive: bool)
    | ReturnFired(flight: nat, now: Instant)                 // start_event_fired found the pipeline busy
    | LoseFired(flight: nat)                                 // no version to run, or the process died
    | Create(id: string, run: Run, exclusive: bool)          // manual, scheduled, or a dropped slot's record
    | Mark(id: string, worker: string, now: Instant)
    | Finish(id: string, status: RunStatus, error: Option<string>, now: Instant)
    | Miss(now: Instant)
    | Configure(cfg: Config)
    | Prune(ids: set<string>)

  predicate Enabled(s: Sys, step: Step) {
    match step
    case StartFired(i, id, run, exclusive) =>
      i < |s.flights| && id !in s.used && run.status == RunQueued && run.triggerEvents == Some(s.flights[i]) && CanCreate(s.pipe, exclusive)
    case ReturnFired(i, _) => i < |s.flights|
    case LoseFired(i) => i < |s.flights|
    case Create(id, run, exclusive) => id !in s.used && run.triggerEvents.None? && CanCreate(s.pipe, exclusive)
    case Finish(_, status, _, _) => !IsActive(status)
    case _ => true
  }

  function Next(kind: StoreKind, s: Sys, step: Step): Sys
    requires Enabled(s, step)
  {
    match step
    case Ingest(ev, now, ownRun) => s.(pipe := IngestPipe(s.pipe, ev, now, ownRun))
    case Claim(now) =>
      s.(pipe := ClaimPipe(s.pipe, now),
         flights := if ClaimFire(s.pipe, now).Some? then s.flights + [ClaimFire(s.pipe, now).value] else s.flights)
    case StartFired(i, id, run, _) =>
      s.(pipe := s.pipe.(runs := s.pipe.runs[id := run]), flights := Remove(s.flights, i), used := s.used + {id})
    case ReturnFired(i, now) => s.(pipe := RequeuePipe(kind, s.pipe, s.flights[i], now), flights := Remove(s.flights, i))
    case LoseFired(i) => s.(flights := Remove(s.flights, i))
    case Create(id, run, _) => s.(pipe := s.pipe.(runs := s.pipe.runs[id := run]), used := s.used + {id})
    case Mark(id, worker, now) => s.(pipe := MarkPipe(s.pipe, id, worker, now))
    case Finish(id, status, error, now) => s.(pipe := FinishPipe(s.pipe, id, status, error, now))
    case Miss(now) => s.(pipe := MissPipe(s.pipe, now))
    case Configure(cfg) => s.(pipe := ConfigurePipe(s.pipe, cfg))
    case Prune(ids) => s.(pipe := PrunePipe(s.pipe, ids))
  }

  const NEW_PIPE := Pipe(Config(None, None, false), None, map[])

  ghost predicate IsRun(kind: StoreKind, states: seq<Sys>, steps: seq<Step>) {
    && |states| == |steps| + 1
    && states[0] == Sys(NEW_PIPE, [], {})
    && (forall i :: 0 <= i < |steps| ==> Enabled(states[i], steps[i]) && states[i + 1] == Next(kind, states[i], steps[i]))
  }

  // ---- the store follows the trigger protocol ----

  // The protocol state a system state stands for.
  ghost predicate Follows(s: Sys, p: P.Protocol) {
    && p.st == Row(s.pipe)
    && SameFlights(p.flights, s.flights)
    && RunsTold(s.pipe.runs, p.carried)
  }

  // The protocol step a system step performs, if it touches the trigger at all.
  function Performs(kind: StoreKind, s: Sys, step: Step): Option<P.Step>
    requires Enabled(s, step)
  {
    var p := s.pipe;
    match step
    case Ingest(ev, now, ownRun) =>
      if Watching(p.cfg) && Concerns(p.cfg.trigger.value, p.cfg.since, ev)
      then Some(P.Ingest(p.cfg.trigger.value, ev, now, ownRun, Active(p.runs), p.cfg.concurrent)) else None
    case Claim(now) =>
      if Picked(p, now) && Watching(p.cfg)
      then Some(P.Claim(p.cfg.trigger.value, now, StartsNow(Active(p.runs), p.cfg.concurrent))) else None
    case StartFired(i, id, _, _) => Some(P.Start(i, id))
    case ReturnFired(i, now) =>
      if p.st.Some? && TakesRequeue(kind, p.cfg) then Some(P.Requeue(i, p.cfg.trigger.value, now, !Active(p.runs))) else Some(P.Lose(i))
    case LoseFired(i) => Some(P.Lose(i))
    case Finish(id, _, _, now) =>
      if Wins(p, id) && p.st.Some? && Watching(p.cfg) then Some(P.Release(p.cfg.trigger.value, now)) else None
    case Miss(now) => if Watching(p.cfg) then Some(P.MissEvents(p.cfg.trigger.value, now)) else None
    case Configure(cfg) => if Watching(cfg) then None else Some(P.TurnOff)
    case _ => None
  }

  function After(p: P.Protocol, step: Option<P.Step>): P.Protocol
    requires step.Some? ==> P.Enabled(p, step.value)
  {
    if step.Some? then P.Next(p, step.value) else p
  }

  lemma RowFollows(kind: StoreKind, s: Sys, step: Step, p: P.Protocol)
    requires Follows(s, p) && Enabled(s, step)
    ensures var did := Performs(kind, s, step);
            (did.Some? ==> P.Enabled(p, did.value)) && After(p, did).st == Row(Next(kind, s, step).pipe)
  {
    hide Follows, Enabled, Next, Performs, P.Enabled, P.Next;
    if step.Ingest? || step.Claim? {
      RowFollowsEvent(kind, s, step, p);
    } else if step.Finish? || step.Miss? || step.Configure? {
      RowFollowsOther(kind, s, step, p);
    } else {
      RowFollowsFlight(kind, s, step, p);
    }
  }

  lemma RowFollowsEvent(kind: StoreKind, s: Sys, step: Step, p: P.Protocol)
    requires Follows(s, p) && Enabled(s, step) && (step.Ingest? || step.Claim?)
    ensures var did := Performs(kind, s, step);
            (did.Some? ==> P.Enabled(p, did.value)) && After(p, did).st == Row(Next(kind, s, step).pipe)
  {
    hide Ingested, P.ClaimedRow, Active, Concerns, SameFlights;
  }

  lemma RowFollowsOther(kind: StoreKind, s: Sys, step: Step, p: P.Protocol)
    requires Follows(s, p) && Enabled(s, step) && (step.Finish? || step.Miss? || step.Configure?)
    ensures var did := Performs(kind, s, step);
            (did.Some? ==> P.Enabled(p, did.value)) && After(p, did).st == Row(Next(kind, s, step).pipe)
  {
    hide Finished, Missed, Active, SameFlights;
    if step.Configure? { assert Reset(EMPTY) == EMPTY; }
    hide Reset;
  }

  lemma RowFollowsFlight(kind: StoreKind, s: Sys, step: Step, p: P.Protocol)
    requires Follows(s, p) && Enabled(s, step) && !step.Ingest? && !step.Claim? && !step.Finish? && !step.Miss? && !step.Configure?
    ensures var did := Performs(kind, s, step);
            (did.Some? ==> P.Enabled(p, did.value)) && After(p, did).st == Row(Next(kind, s, step).pipe)
  {
    hide P.RequeuedRow, Active, Retained;
  }

  ghost predicate SameFlights(p: seq<P.Flight>, s: seq<Fired>) {
    |p| == |s| && forall i :: 0 <= i < |s| ==> p[i].fired == s[i]
  }

  lemma SameFlightsRemove(p: seq<P.Flight>, s: seq<Fired>, i: nat)
    requires SameFlights(p, s) && i < |s|
    ensures SameFlights(Remove(p, i), Remove(s, i))
  {
  }

  lemma FlightsFollow(kind: StoreKind, s: Sys, step: Step, p: P.Protocol)
    requires Follows(s, p) && Enabled(s, step)
    requires var did := Performs(kind, s, step); did.Some? ==> P.Enabled(p, did.value)
    ensures SameFlights(After(p, Performs(kind, s, step)).flights, Next(kind, s, step).flights)
  {
    match step
    case StartFired(i, _, _, _) => SameFlightsRemove(p.flights, s.flights, i);
    case ReturnFired(i, _) => SameFlightsRemove(p.flights, s.flights, i);
    case LoseFired(i) => SameFlightsRemove(p.flights, s.flights, i);
    case Claim(now) => FlightsFollowClaim(kind, s, step, p);
    case _ =>
  }

  lemma FlightsFollowClaim(kind: StoreKind, s: Sys, step: Step, p: P.Protocol)
    requires Follows(s, p) && step.Claim? && Enabled(s, step)
    requires var did := Performs(kind, s, step); did.Some? ==> P.Enabled(p, did.value)
    ensures SameFlights(After(p, Performs(kind, s, step)).flights, Next(kind, s, step).flights)
  {
    if Performs(kind, s, step).Some? {
      var t, st := s.pipe.cfg.trigger.value, s.pipe.st.value;
      var startsNow := StartsNow(Active(s.pipe.runs), s.pipe.cfg.concurrent);
      assert ClaimFire(s.pipe, step.now) == P.ClaimedFire(st, t, step.now, startsNow);
    }
  }

  // Every run that an event fired was told what the protocol says it carries.
  ghost predicate RunsTold(runs: map<string, Run>, carried: seq<P.Carried>) {
    forall id :: id in runs && runs[id].triggerEvents.Some? ==>
      exists c :: c in carried && c.runId == id && c.fired == runs[id].triggerEvents.value
  }

  lemma RunsToldOneMore(runs: map<string, Run>, carried: seq<P.Carried>, id: string, run: Run, c: P.Carried)
    requires RunsTold(runs, carried) && run.triggerEvents == Some(c.fired) && c.runId == id
    ensures RunsTold(runs[id := run], carried + [c])
  {
    var more := carried + [c];
    assert more[|carried|] == c && c in more;
    forall x | x in runs && x != id && runs[x].triggerEvents.Some?
      ensures exists d :: d in more && d.runId == x && d.fired == runs[x].triggerEvents.value
    {
      var d :| d in carried && d.runId == x && d.fired == runs[x].triggerEvents.value;
      assert d in more;
    }
  }

  lemma CarriedStays(kind: StoreKind, s: Sys, step: Step, p: P.Protocol)
    requires Enabled(s, step) && !step.StartFired?
    requires var did := Performs(kind, s, step); did.Some? ==> P.Enabled(p, did.value)
    ensures After(p, Performs(kind, s, step)).carried == p.carried
  {
    hide Ingested, Finished, Missed, Reset, P.ClaimedRow, P.RequeuedRow, P.ClaimedFire, P.Claimable, Concerns, Active, Next;
  }

  // No other step changes what a run was told.
  lemma ToldStays(kind: StoreKind, s: Sys, step: Step, id: string)
    requires Enabled(s, step) && !step.StartFired? && id in Next(kind, s, step).pipe.runs
    requires Next(kind, s, step).pipe.runs[id].triggerEvents.Some?
    ensures id in s.pipe.runs && s.pipe.runs[id].triggerEvents == Next(kind, s, step).pipe.runs[id].triggerEvents
  {
    hide Ingested, Finished, Missed, Reset, P.ClaimedRow, P.RequeuedRow, P.ClaimedFire, P.Claimable, Concerns, Active;
  }

  lemma RunsFollow(kind: StoreKind, s: Sys, step: Step, p: P.Protocol)
    requires Follows(s, p) && Enabled(s, step)
    requires var did := Performs(kind, s, step); did.Some? ==> P.Enabled(p, did.value)
    ensures RunsTold(Next(kind, s, step).pipe.runs, After(p, Performs(kind, s, step)).carried)
  {
    if step.StartFired? {
      var f := p.flights[step.flight];
      RunsToldOneMore(s.pipe.runs, p.carried, step.id, step.run, P.Carried(step.id, f.fired, f.burst));
    } else {
      CarriedStays(kind, s, step, p);
      hide Next, Performs, P.Next, Enabled;
      var runs := Next(kind, s, step).pipe.runs;
      forall id | id in runs && runs[id].triggerEvents.Some?
        ensures exists c :: c in p.carried && c.runId == id && c.fired == runs[id].triggerEvents.value
      {
        ToldStays(kind, s, step, id);
      }
    }
  }

  predicate Hears(s: Sys, step: Step) {
    step.Ingest? && Watching(s.pipe.cfg) && Concerns(s.pipe.cfg.trigger.value, s.pipe.cfg.since, step.ev)
  }

  // The events the trigger took in during the first k steps, in order.
  function Heard(states: seq<Sys>, steps: seq<Step>, k: nat): seq<TriggerEvent>
    requires k <= |steps| && |states| == |steps| + 1
  {
    if k == 0 then []
    else Heard(states, steps, k - 1) + (if Hears(states[k - 1], steps[k - 1]) then [steps[k - 1].ev] else [])
  }

  // The times of the fires claimed during the first k steps.
  function FiresAt(states: seq<Sys>, steps: seq<Step>, k: nat): seq<Instant>
    requires k <= |steps| && |states| == |steps| + 1
  {
    if k == 0 then [] else FiresAt(states, steps, k - 1) + Fires(states[k - 1], steps[k - 1])
  }

  function Fires(s: Sys, step: Step): seq<Instant> {
    if step.Claim? && ClaimFire(s.pipe, step.now).Some? then [step.now] else []
  }

  // The clock readings those events were heard at.
  function HeardAt(states: seq<Sys>, steps: seq<Step>, k: nat): seq<Instant>
    requires k <= |steps| && |states| == |steps| + 1
  {
    if k == 0 then [] else HeardAt(states, steps, k - 1) + (if Hears(states[k - 1], steps[k - 1]) then [steps[k - 1].now] else [])
  }

  predicate HearsOfOutage(s: Sys, step: Step) { step.Miss? && Watching(s.pipe.cfg) }

  // How many outages the trigger was told of.
  function OutagesTo(states: seq<Sys>, steps: seq<Step>, k: nat): nat
    requires k <= |steps| && |states| == |steps| + 1
  {
    if k == 0 then 0 else OutagesTo(states, steps, k - 1) + (if HearsOfOutage(states[k - 1], steps[k - 1]) then 1 else 0)
  }

  // States[k] stands for p, over the same events, the same fires and as many outages.
  ghost predicate Stands(states: seq<Sys>, steps: seq<Step>, k: nat, p: P.Protocol)
    requires k <= |steps| && |states| == |steps| + 1
  {
    && Follows(states[k], p) && p.log == Heard(states, steps, k) && p.fires == FiresAt(states, steps, k)
    && p.heard == HeardAt(states, steps, k) && p.outages == OutagesTo(states, steps, k)
  }

  ghost predicate AllEnabled(states: seq<Sys>, steps: seq<Step>) {
    |states| == |steps| + 1 && forall i :: 0 <= i < |steps| ==> Enabled(states[i], steps[i])
  }

  // A protocol step that one of the first n steps performs.
  ghost predicate Performed(kind: StoreKind, states: seq<Sys>, steps: seq<Step>, n: nat, pstep: P.Step)
    requires AllEnabled(states, steps) && n <= |steps|
  {
    exists i :: 0 <= i < n && Performs(kind, states[i], steps[i]) == Some(pstep)
  }

  ghost predicate StandsFor(kind: StoreKind, states: seq<Sys>, steps: seq<Step>, ps: seq<P.Protocol>, psteps: seq<P.Step>, at: seq<nat>, n: nat)
    requires AllEnabled(states, steps) && n <= |steps|
  {
    && |at| == n + 1 && |ps| > 0 && at[n] == |ps| - 1
    && (forall k :: 0 <= k <= n ==> at[k] < |ps| && Stands(states, steps, k, ps[at[k]]))
    && (forall m :: 0 <= m < |psteps| ==> Performed(kind, states, steps, n, psteps[m]))
  }

  // Any run of the store is a run of the protocol over the same events and fires: ps[at[k]] is what states[k]
  // stands for, and every protocol step is performed by a step of the store.
  lemma StoreFollowsProtocol(kind: StoreKind, states: seq<Sys>, steps: seq<Step>)
    returns (ps: seq<P.Protocol>, psteps: seq<P.Step>, at: seq<nat>)
    requires IsRun(kind, states, steps)
    ensures P.IsRun(ps, psteps) && StandsFor(kind, states, steps, ps, psteps, at, |steps|)
  {
    ps, psteps, at := FollowsUpTo(kind, states, steps, |steps|);
  }

  lemma {:induction false} FollowsUpTo(kind: StoreKind, states: seq<Sys>, steps: seq<Step>, n: nat)
    returns (ps: seq<P.Protocol>, psteps: seq<P.Step>, at: seq<nat>)
    requires IsRun(kind, states, steps) && n <= |steps|
    ensures P.IsRun(ps, psteps) && StandsFor(kind, states, steps, ps, psteps, at, n)
  {
    hide Follows, Next, Enabled, Performs, Hears, P.Next, P.Enabled, P.IsRun;
    if n == 0 {
      FollowsFromTheStart();
      ps, psteps, at := [P.INITIAL], [], [0];
    } else {
      ps, psteps, at := FollowsUpTo(kind, states, steps, n - 1);
      ps, psteps, at := StoreFollowsOnce(kind, states, steps, n - 1, ps, psteps, at);
    }
  }

  lemma FollowsFromTheStart()
    ensures Follows(Sys(NEW_PIPE, [], {}), P.INITIAL) && P.IsRun([P.INITIAL], [])
  {
  }

  lemma StepStands(kind: StoreKind, states: seq<Sys>, steps: seq<Step>, n: nat, p: P.Protocol)
    requires IsRun(kind, states, steps) && n < |steps| && Stands(states, steps, n, p)
    ensures var did := Performs(kind, states[n], steps[n]);
            (did.Some? ==> P.Enabled(p, did.value)) && Stands(states, steps, n + 1, After(p, did))
  {
    hide Follows, Next, Enabled, Performs, Hears, HearsOfOutage, Fires, P.Next, P.Enabled, After;
    OneStepFollows(kind, states[n], steps[n], p);
    assert states[n + 1] == Next(kind, states[n], steps[n]);
  }

  lemma StoreFollowsOnce(kind: StoreKind, states: seq<Sys>, steps: seq<Step>, n: nat, ps: seq<P.Protocol>, psteps: seq<P.Step>, at: seq<nat>)
    returns (ps': seq<P.Protocol>, psteps': seq<P.Step>, at': seq<nat>)
    requires IsRun(kind, states, steps) && n < |steps|
    requires P.IsRun(ps, psteps) && StandsFor(kind, states, steps, ps, psteps, at, n)
    ensures P.IsRun(ps', psteps') && StandsFor(kind, states, steps, ps', psteps', at', n + 1)
  {
    hide Stands, Next, Enabled, Performs, Performed, P.Next, P.Enabled;
    var p, did := ps[|ps| - 1], Performs(kind, states[n], steps[n]);
    StepStands(kind, states, steps, n, p);
    var q := After(p, did);
    ps', psteps' := ps, psteps;
    if did.Some? {
      P.RunExtends(ps, psteps, did.value);
      ps', psteps' := ps + [q], psteps + [did.value];
    }
    at' := at + [|ps'| - 1];
    hide After, P.IsRun;
    forall k | 0 <= k <= n + 1 ensures at'[k] < |ps'| && Stands(states, steps, k, ps'[at'[k]]) {
      if k <= n { assert at'[k] == at[k] && ps'[at[k]] == ps[at[k]]; }
    }
    forall m | 0 <= m < |psteps'| ensures Performed(kind, states, steps, n + 1, psteps'[m]) {
      if m < |psteps| { PerformedLater(kind, states, steps, n, psteps[m]); } else { PerformedNow(kind, states, steps, n); }
    }
  }

  lemma PerformedLater(kind: StoreKind, states: seq<Sys>, steps: seq<Step>, n: nat, pstep: P.Step)
    requires AllEnabled(states, steps) && n < |steps| && Performed(kind, states, steps, n, pstep)
    ensures Performed(kind, states, steps, n + 1, pstep)
  {
    hide Performs, Enabled;
  }

  lemma PerformedNow(kind: StoreKind, states: seq<Sys>, steps: seq<Step>, n: nat)
    requires AllEnabled(states, steps) && n < |steps| && Performs(kind, states[n], steps[n]).Some?
    ensures Performed(kind, states, steps, n + 1, Performs(kind, states[n], steps[n]).value)
  {
    hide Performs, Enabled;
  }

  lemma OneStepFollows(kind: StoreKind, s: Sys, step: Step, p: P.Protocol)
    requires Follows(s, p) && Enabled(s, step)
    ensures var did := Performs(kind, s, step);
            && (did.Some? ==> P.Enabled(p, did.value))
            && Follows(Next(kind, s, step), After(p, did))
            && After(p, did).log == p.log + (if Hears(s, step) then [step.ev] else [])
            && After(p, did).fires == p.fires + Fires(s, step)
            && After(p, did).heard == p.heard + (if Hears(s, step) then [step.now] else [])
            && After(p, did).outages == p.outages + (if HearsOfOutage(s, step) then 1 else 0)
  {
    HistoryFollows(kind, s, step, p);
    RowFollows(kind, s, step, p);
    FlightsFollow(kind, s, step, p);
    RunsFollow(kind, s, step, p);
    LogFollows(kind, s, step, p);
    FiresFollow(kind, s, step, p);
  }

  lemma HistoryFollows(kind: StoreKind, s: Sys, step: Step, p: P.Protocol)
    requires Follows(s, p) && Enabled(s, step)
    requires var did := Performs(kind, s, step); did.Some? ==> P.Enabled(p, did.value)
    ensures After(p, Performs(kind, s, step)).heard == p.heard + (if Hears(s, step) then [step.now] else [])
    ensures After(p, Performs(kind, s, step)).outages == p.outages + (if HearsOfOutage(s, step) then 1 else 0)
  {
    hide Ingested, Finished, Missed, Reset, P.ClaimedRow, P.RequeuedRow, P.Released, Active, Concerns, Follows, Next;
  }

  lemma FiresFollow(kind: StoreKind, s: Sys, step: Step, p: P.Protocol)
    requires Follows(s, p) && Enabled(s, step)
    requires var did := Performs(kind, s, step); did.Some? ==> P.Enabled(p, did.value)
    ensures After(p, Performs(kind, s, step)).fires == p.fires + Fires(s, step)
  {
    hide Ingested, Finished, Missed, Reset, P.ClaimedRow, P.RequeuedRow, P.Released, Active, Concerns;
  }

  lemma LogFollows(kind: StoreKind, s: Sys, step: Step, p: P.Protocol)
    requires Follows(s, p) && Enabled(s, step)
    requires var did := Performs(kind, s, step); did.Some? ==> P.Enabled(p, did.value)
    ensures After(p, Performs(kind, s, step)).log == p.log + (if Hears(s, step) then [step.ev] else [])
  {
  }

  // So, in every reachable state, nothing to deliver is left without something to deliver it.
  lemma ReachableStatesAreAwake(kind: StoreKind, states: seq<Sys>, steps: seq<Step>, k: nat)
    requires IsRun(kind, states, steps) && k < |states|
    ensures P.Awake(Row(states[k].pipe))
  {
    var ps, psteps, at := StoreFollowsProtocol(kind, states, steps);
    assert Stands(states, steps, k, ps[at[k]]);
    P.NoLostWakeUp(ps, psteps, at[k]);
  }

  // The settings stay within the bounds.
  ghost predicate ConfigsWithin(states: seq<Sys>, b: P.Bounds) {
    forall i :: 0 <= i < |states| ==> ConfigWithin(states[i].pipe.cfg, b)
  }

  predicate ConfigWithin(cfg: Config, b: P.Bounds) { cfg.trigger.Some? ==> P.Within(cfg.trigger.value, b) }

  lemma PerformsWithin(kind: StoreKind, s: Sys, step: Step, b: P.Bounds)
    requires Enabled(s, step) && ConfigWithin(s.pipe.cfg, b)
    ensures Performs(kind, s, step).Some? ==> P.StepWithin(Performs(kind, s, step).value, b)
  {
    hide Active, Concerns, Picked;
  }

  lemma PerformedWithin(kind: StoreKind, states: seq<Sys>, steps: seq<Step>, n: nat, b: P.Bounds, pstep: P.Step)
    requires AllEnabled(states, steps) && n <= |steps| && ConfigsWithin(states, b) && Performed(kind, states, steps, n, pstep)
    ensures P.StepWithin(pstep, b)
  {
    var i :| 0 <= i < n && Performs(kind, states[i], steps[i]) == Some(pstep);
    PerformsWithin(kind, states[i], steps[i], b);
  }

  // Whatever the clocks say: the row's timer keeps to the minimum gap and the longest wait in every reachable
  // state, and to the debounce after an event; and the fires claimed up to then are the gap apart, n of them n - 1
  // gaps.
  lemma StoreKeepsTime(kind: StoreKind, states: seq<Sys>, steps: seq<Step>, k: nat, b: P.Bounds)
    requires IsRun(kind, states, steps) && k < |states| && ConfigsWithin(states, b)
    ensures P.Timed(Row(states[k].pipe), b)
    ensures Debounce.NearSomeEvent(Row(states[k].pipe), HeardAt(states, steps, k), b)
    ensures Debounce.Rising(HeardAt(states, steps, k)) ==> Debounce.NearLastEvent(Row(states[k].pipe), b)
    ensures var fires := FiresAt(states, steps, k);
            forall i, j :: 0 <= i < j < |fires| ==> fires[j] - fires[i] >= (j - i) * Seconds(b.minGap)
  {
    var ps, psteps, at := StoreFollowsProtocol(kind, states, steps);
    forall m | 0 <= m < |psteps| ensures P.StepWithin(psteps[m], b) {
      PerformedWithin(kind, states, steps, |steps|, b, psteps[m]);
    }
    hide Performed, Performs, IsRun, P.IsRun, P.StepWithin, P.Timed, Debounce.NearSomeEvent, Debounce.NearLastEvent;
    assert Stands(states, steps, k, ps[at[k]]);
    P.FireTimeIsBounded(ps, psteps, at[k], b);
    Debounce.RowIsDebounced(ps, psteps, at[k], b);
    var fires := FiresAt(states, steps, k);
    forall i, j | 0 <= i < j < |fires| ensures fires[j] - fires[i] >= (j - i) * Seconds(b.minGap) {
      P.FiresAreSpaced(ps, psteps, at[k], b, i, j);
    }
  }

  // What an event the trigger hears does to its row, by who wrote it and what is running.
  lemma HeardEventDoes(kind: StoreKind, states: seq<Sys>, steps: seq<Step>, k: nat)
    requires IsRun(kind, states, steps) && k < |steps| && Hears(states[k], steps[k])
    ensures var cfg, before, after := states[k].pipe.cfg, Row(states[k].pipe), Row(states[k + 1].pipe);
            var (t, step, inTheWay) := (cfg.trigger.value, steps[k], Active(states[k].pipe.runs) && !cfg.concurrent);
            && (step.ownRun ==> after == before.(ignoredOwnRuns := before.ignoredOwnRuns + 1))
            && (!step.ownRun && !inTheWay ==> WaitsFor(before, after, t, step.now) && Joins(before, after, step.ev) && !after.queued)
            && (!step.ownRun && inTheWay ==> SameTimer(before, after))
            && (!step.ownRun && inTheWay && t.whenRunning == QueueOne ==> after.queued && Joins(before, after, step.ev))
            && (!step.ownRun && inTheWay && t.whenRunning == Skip ==>
                  SameBurst(before, after) && after.skippedWhileRunning == before.skippedWhileRunning + 1)
  {
    var p, step := states[k].pipe, steps[k];
    IngestCases(Row(p), p.cfg.trigger.value, step.ev, step.now, step.ownRun, Active(p.runs), p.cfg.concurrent);
    assert states[k + 1] == Next(kind, states[k], step);
    hide Ingested, IngestOutcome, WaitsFor, Joins, SameTimer, SameBurst, Active;
  }

  // The row, the claimed fires and the stored runs say that events may have been missed exactly when an outage the
  // trigger was told of came with their burst; and each such outage is in exactly one place.
  lemma OutagesAreTold(kind: StoreKind, states: seq<Sys>, steps: seq<Step>, k: nat) returns (l: O.Ledger)
    requires IsRun(kind, states, steps) && k < |states|
    ensures O.Placed(l, OutagesTo(states, steps, k)) && (Row(states[k].pipe).missedEvents <==> l.pending != [])
    ensures FiresFlagged(states[k].flights, l)
    ensures forall id :: id in states[k].pipe.runs && states[k].pipe.runs[id].triggerEvents.Some? ==>
              RunFlagged(id, states[k].pipe.runs[id].triggerEvents.value, l)
  {
    var ps, psteps, at := StoreFollowsProtocol(kind, states, steps);
    hide Performed, Performs, IsRun, P.IsRun, O.Placed;
    assert Stands(states, steps, k, ps[at[k]]);
    O.OutagesAreTold(ps, psteps, at[k]);
    l := O.Ledgers(ps, psteps, at[k]);
    FlagsFollow(states[k], ps[at[k]], l);
  }

  ghost predicate FiresFlagged(flights: seq<Fired>, l: O.Ledger) {
    |l.flights| == |flights| && forall i :: 0 <= i < |flights| ==> (flights[i].missedEvents <==> l.flights[i] != [])
  }

  ghost predicate RunFlagged(id: string, told: Fired, l: O.Ledger) {
    exists r :: 0 <= r < |l.runIds| && r < |l.runs| && l.runIds[r] == id && (told.missedEvents <==> l.runs[r] != [])
  }

  lemma FlagsFollow(s: Sys, p: P.Protocol, l: O.Ledger)
    requires Follows(s, p) && O.Flagged(p, l)
    ensures (Row(s.pipe).missedEvents <==> l.pending != []) && FiresFlagged(s.flights, l)
    ensures forall id :: id in s.pipe.runs && s.pipe.runs[id].triggerEvents.Some? ==> RunFlagged(id, s.pipe.runs[id].triggerEvents.value, l)
  {
    forall id | id in s.pipe.runs && s.pipe.runs[id].triggerEvents.Some? ensures RunFlagged(id, s.pipe.runs[id].triggerEvents.value, l) {
      var c :| c in p.carried && c.runId == id && c.fired == s.pipe.runs[id].triggerEvents.value;
      var r :| 0 <= r < |p.carried| && p.carried[r] == c;
      assert O.RunFlagged(p.carried[r], l, r);
    }
  }

  // Every stored run that an event fired was told exactly a burst of the events heard: its first 100 events in
  // burst order and its size; a run whose fire was put back and claimed again included.
  lemma StoredRunsAreToldTheirBurst(kind: StoreKind, states: seq<Sys>, steps: seq<Step>, k: nat, id: string)
    returns (burst: seq<P.Token>)
    requires IsRun(kind, states, steps) && k < |states|
    requires id in states[k].pipe.runs && states[k].pipe.runs[id].triggerEvents.Some?
    ensures var told := states[k].pipe.runs[id].triggerEvents.value;
            P.Tells(told.events, told.count, burst, Heard(states, steps, k))
  {
    var ps, psteps, at := StoreFollowsProtocol(kind, states, steps);
    var p := ps[at[k]];
    assert Stands(states, steps, k, p);
    P.EveryEventIsInOnePlace(ps, psteps, at[k]);
    var c :| c in p.carried && c.runId == id && c.fired == states[k].pipe.runs[id].triggerEvents.value;
    burst := c.burst;
  }

  function Counts(flights: seq<Fired>): nat {
    if flights == [] then 0 else Counts(flights[..|flights| - 1]) + flights[|flights| - 1].count
  }

  lemma {:induction false} CountsRemove(flights: seq<Fired>, i: nat)
    requires i < |flights|
    ensures Counts(flights) == flights[i].count + Counts(Remove(flights, i))
    decreases |flights|
  {
    hide Counts;
    var n := |flights| - 1;
    assert flights == flights[..n] + [flights[n]];
    CountsSnoc(flights[..n], flights[n]);
    if i < n {
      CountsRemove(flights[..n], i);
      assert Remove(flights, i) == Remove(flights[..n], i) + [flights[n]];
      CountsSnoc(Remove(flights[..n], i), flights[n]);
    } else {
      assert Remove(flights, i) == flights[..n];
    }
  }

  // How many events leave the trigger's keeping in one step: with a created run, or for good.
  function Leaving(kind: StoreKind, s: Sys, step: Step): nat
    requires Enabled(s, step)
  {
    match step
    case StartFired(i, _, _, _) => s.flights[i].count
    case LoseFired(i) => s.flights[i].count
    case ReturnFired(i, _) => if s.pipe.st.Some? && TakesRequeue(kind, s.pipe.cfg) then 0 else s.flights[i].count
    case Configure(cfg) => if Watching(cfg) then 0 else Row(s.pipe).eventCount
    case _ => 0
  }

  function Left(kind: StoreKind, states: seq<Sys>, steps: seq<Step>, k: nat): nat
    requires k <= |steps| && |states| == |steps| + 1
    requires forall i :: 0 <= i < |steps| ==> Enabled(states[i], steps[i])
  {
    if k == 0 then 0 else Left(kind, states, steps, k - 1) + Leaving(kind, states[k - 1], steps[k - 1])
  }

  function RowKept(st: State): nat { st.ignoredOwnRuns + st.skippedWhileRunning + st.eventCount }

  function Kept(s: Sys): nat {
    RowKept(Row(s.pipe)) + Counts(s.flights)
  }

  lemma ClaimKeeps(st: State, t: EventTrigger, now: Instant, startsNow: bool)
    ensures var st' := P.ClaimedRow(st, t, now, startsNow);
            var fire := P.ClaimedFire(st, t, now, startsNow);
            RowKept(st') + (if fire.Some? then fire.value.count else 0) == RowKept(st)
  {
  }

  lemma KeptNextClaim(kind: StoreKind, s: Sys, step: Step)
    requires step.Claim? && Enabled(s, step)
    ensures Kept(Next(kind, s, step)) == Kept(s)
  {
    hide RowKept, Counts, P.ClaimedRow, P.ClaimedFire, P.Claimable;
    var q := Next(kind, s, step);
    ClaimPipeKeeps(s.pipe, step.now);
    if ClaimFire(s.pipe, step.now).Some? {
      CountsSnoc(s.flights, ClaimFire(s.pipe, step.now).value);
    }
    hide ClaimPipe, ClaimFire;
  }

  lemma ClaimPipeKeeps(p: Pipe, now: Instant)
    ensures RowKept(Row(ClaimPipe(p, now))) + (if ClaimFire(p, now).Some? then ClaimFire(p, now).value.count else 0) == RowKept(Row(p))
  {
    if Picked(p, now) && Watching(p.cfg) {
      ClaimKeeps(p.st.value, p.cfg.trigger.value, now, StartsNow(Active(p.runs), p.cfg.concurrent));
    }
    hide RowKept, P.ClaimedRow, P.ClaimedFire, P.Claimable;
  }

  lemma CountsSnoc(flights: seq<Fired>, f: Fired)
    ensures Counts(flights + [f]) == Counts(flights) + f.count
  {
    assert (flights + [f])[..|flights|] == flights;
  }

  lemma RequeueKeeps(st: State, t: EventTrigger, fired: Fired, now: Instant, idle: bool)
    ensures RowKept(P.RequeuedRow(st, t, fired, now, idle)) == RowKept(st) + fired.count
  {
  }

  lemma RequeuePipeKeeps(kind: StoreKind, p: Pipe, fired: Fired, now: Instant)
    ensures RowKept(Row(RequeuePipe(kind, p, fired, now))) ==
            RowKept(Row(p)) + (if p.st.Some? && TakesRequeue(kind, p.cfg) then fired.count else 0)
  {
    if p.st.Some? && TakesRequeue(kind, p.cfg) {
      RequeueKeeps(p.st.value, p.cfg.trigger.value, fired, now, !Active(p.runs));
    }
  }

  lemma KeptNextFlight(kind: StoreKind, s: Sys, step: Step)
    requires Enabled(s, step) && (step.StartFired? || step.ReturnFired? || step.LoseFired?)
    ensures Kept(Next(kind, s, step)) + Leaving(kind, s, step) == Kept(s)
  {
    CountsRemove(s.flights, step.flight);
    if step.ReturnFired? {
      RequeuePipeKeeps(kind, s.pipe, s.flights[step.flight], step.now);
    }
    hide RequeuePipe, RowKept, Counts;
    assert Next(kind, s, step).flights == Remove(s.flights, step.flight);
    assert !step.ReturnFired? ==> Row(Next(kind, s, step).pipe) == Row(s.pipe);
  }

  lemma IngestKeeps(st: State, t: EventTrigger, ev: TriggerEvent, now: Instant, outcome: Outcome)
    ensures RowKept(Ingested(st, t, ev, now, outcome)) == RowKept(st) + 1
  {
  }

  lemma KeptNextIngest(kind: StoreKind, s: Sys, step: Step)
    requires Enabled(s, step) && step.Ingest?
    ensures Kept(Next(kind, s, step)) == Kept(s) + (if Hears(s, step) then 1 else 0)
  {
    if Hears(s, step) {
      IngestKeeps(Row(s.pipe), s.pipe.cfg.trigger.value, step.ev, step.now, OutcomeAt(s.pipe, step.ownRun));
    }
  }

  lemma FinishKeeps(p: Pipe, id: string, status: RunStatus, error: Option<string>, now: Instant)
    ensures RowKept(Row(FinishPipe(p, id, status, error, now))) == RowKept(Row(p))
  {
  }

  lemma MissKeeps(p: Pipe, now: Instant)
    ensures RowKept(Row(MissPipe(p, now))) == RowKept(Row(p))
  {
  }

  lemma ResetKeeps(st: State)
    ensures RowKept(Reset(st)) + st.eventCount == RowKept(st)
  {
  }

  lemma ConfigureKeeps(p: Pipe, cfg: Config)
    ensures RowKept(Row(ConfigurePipe(p, cfg))) + (if Watching(cfg) then 0 else Row(p).eventCount) == RowKept(Row(p))
  {
    if p.st.Some? {
      ResetKeeps(p.st.value);
    } else {
      assert Row(ConfigurePipe(p, cfg)) == Row(p) == EMPTY;
    }
    hide Watching, Reset;
  }

  lemma KeptByPipe(s: Sys, q: Sys)
    requires q.flights == s.flights
    ensures Kept(q) == Kept(s) - RowKept(Row(s.pipe)) + RowKept(Row(q.pipe))
  {
    hide RowKept, Row;
  }

  lemma KeptNextFinish(kind: StoreKind, s: Sys, step: Step)
    requires step.Finish? && Enabled(s, step)
    ensures Kept(Next(kind, s, step)) == Kept(s)
  {
    hide FinishPipe, RowKept, Counts, Kept;
    FinishKeeps(s.pipe, step.id, step.status, step.error, step.now);
    KeptByPipe(s, Next(kind, s, step));
  }

  lemma KeptNextMiss(kind: StoreKind, s: Sys, step: Step)
    requires step.Miss?
    ensures Kept(Next(kind, s, step)) == Kept(s)
  {
    hide MissPipe, RowKept, Counts, Kept;
    MissKeeps(s.pipe, step.now);
    KeptByPipe(s, Next(kind, s, step));
  }

  lemma KeptNextConfigure(kind: StoreKind, s: Sys, step: Step)
    requires step.Configure?
    ensures Kept(Next(kind, s, step)) + Leaving(kind, s, step) == Kept(s)
  {
    hide ConfigurePipe, RowKept, Counts, Kept;
    ConfigureKeeps(s.pipe, step.cfg);
    KeptByPipe(s, Next(kind, s, step));
  }

  lemma KeptNext(kind: StoreKind, s: Sys, step: Step)
    requires Enabled(s, step)
    ensures Kept(Next(kind, s, step)) + Leaving(kind, s, step) == Kept(s) + (if Hears(s, step) then 1 else 0)
  {
    match step
    case Ingest(_, _, _) => KeptNextIngest(kind, s, step);
    case Claim(_) => KeptNextClaim(kind, s, step);
    case StartFired(_, _, _, _) => KeptNextFlight(kind, s, step);
    case ReturnFired(_, _) => KeptNextFlight(kind, s, step);
    case LoseFired(_) => KeptNextFlight(kind, s, step);
    case Create(_, _, _) =>
    case Mark(_, _, _) =>
    case Prune(_) =>
    case Finish(_, _, _, _) => KeptNextFinish(kind, s, step);
    case Miss(_) => KeptNextMiss(kind, s, step);
    case Configure(_) => KeptNextConfigure(kind, s, step);
  }

  // Conservation in the store's own counters: every event heard was an own run's, was skipped, is pending, is
  // in flight, or left with a run or for good, and none is counted twice.
  lemma {:induction false} EventsHeardAddUp(kind: StoreKind, states: seq<Sys>, steps: seq<Step>, k: nat)
    requires IsRun(kind, states, steps) && k < |states|
    ensures |Heard(states, steps, k)| == Kept(states[k]) + Left(kind, states, steps, k)
  {
    if k > 0 {
      EventsHeardAddUp(kind, states, steps, k - 1);
      assert states[k] == Next(kind, states[k - 1], steps[k - 1]);
      KeptNext(kind, states[k - 1], steps[k - 1]);
    }
  }

  // ---- disabled means quiescent, and a queued follow-up is backed by a run ----

  predicate Quiescent(st: State) {
    st.pendingSince.None? && st.fireAt.None? && !st.queued && st.events == [] && st.eventCount == 0 && !st.missedEvents
  }

  // A trigger that is off waits for nothing.
  predicate Quiet(p: Pipe) { !Watching(p.cfg) && p.st.Some? ==> Quiescent(p.st.value) }

  // A follow-up with no timer is owed to a run that is still active, whose end will release it.
  predicate Backed(p: Pipe) {
    Watching(p.cfg) && p.st.Some? && p.st.value.queued && p.st.value.fireAt.None? ==> Active(p.runs)
  }

  // The step that breaks both in the memory store: a claimed fire put back on a trigger that was turned off meanwhile.
  predicate ReturnsToDisabled(s: Sys, step: Step) {
    step.ReturnFired? && s.pipe.cfg.trigger.Some? && !s.pipe.cfg.trigger.value.enabled && s.pipe.cfg.trigger.value.whenRunning == QueueOne
  }

  // Run ids are never reused, and a fire is claimed only from a row.
  predicate Sound(s: Sys) {
    && (s.flights != [] ==> s.pipe.st.Some?)
    && (forall id :: id in s.pipe.runs ==> id in s.used)
  }

  lemma SoundNext(kind: StoreKind, s: Sys, step: Step)
    requires Sound(s) && Enabled(s, step)
    ensures Sound(Next(kind, s, step))
  {
  }

  lemma {:induction false} ReachableStatesAreSound(kind: StoreKind, states: seq<Sys>, steps: seq<Step>, k: nat)
    requires IsRun(kind, states, steps) && k < |states|
    ensures Sound(states[k])
  {
    if k > 0 {
      ReachableStatesAreSound(kind, states, steps, k - 1);
      assert states[k] == Next(kind, states[k - 1], steps[k - 1]);
      SoundNext(kind, states[k - 1], steps[k - 1]);
    }
  }

  lemma ActiveKept(p: Pipe, runs: map<string, Run>, id: string)
    requires Active(p.runs)
    requires forall r :: r in p.runs && IsActive(p.runs[r].status) && r != id ==> r in runs && IsActive(runs[r].status)
    requires id in p.runs && IsActive(p.runs[id].status) ==> id in runs && IsActive(runs[id].status)
    ensures Active(runs)
  {
    var r :| r in p.runs && IsActive(p.runs[r].status);
    assert r in runs && IsActive(runs[r].status);
  }

  lemma QuietNext(kind: StoreKind, s: Sys, step: Step)
    requires Quiet(s.pipe) && Enabled(s, step)
    requires kind == Memory ==> !ReturnsToDisabled(s, step)
    ensures Quiet(Next(kind, s, step).pipe)
  {
  }

  // The one step that leaves a follow-up owed by nothing: turning a trigger on over a row that is queued without
  // a timer while no run is active.
  predicate TurnsOnOwed(s: Sys, step: Step) {
    && step.Configure? && Watching(step.cfg) && !Watching(s.pipe.cfg) && !Active(s.pipe.runs)
    && s.pipe.st.Some? && s.pipe.st.value.queued && s.pipe.st.value.fireAt.None?
  }

  lemma BackedNextIff(kind: StoreKind, s: Sys, step: Step)
    requires Backed(s.pipe) && Sound(s) && Enabled(s, step)
    ensures Backed(Next(kind, s, step).pipe) <==> !TurnsOnOwed(s, step)
  {
    var p, q := s.pipe, Next(kind, s, step).pipe;
    match step
    case StartFired(_, id, run, _) =>
      if Active(p.runs) { ActiveKept(p, q.runs, id); }
    case Create(id, run, _) =>
      if Active(p.runs) { ActiveKept(p, q.runs, id); }
    case Mark(id, worker, now) =>
      if Active(p.runs) { ActiveKept(p, q.runs, id); }
    case Prune(_) =>
      if Active(p.runs) { ActiveKept(p, q.runs, ""); }
    case _ =>
  }

  lemma {:induction false} BackedUntil(kind: StoreKind, states: seq<Sys>, steps: seq<Step>, k: nat)
    requires IsRun(kind, states, steps) && k < |states|
    requires forall i :: 0 <= i < k ==> !TurnsOnOwed(states[i], steps[i])
    ensures Backed(states[k].pipe)
  {
    if k > 0 {
      BackedUntil(kind, states, steps, k - 1);
      ReachableStatesAreSound(kind, states, steps, k - 1);
      assert states[k] == Next(kind, states[k - 1], steps[k - 1]);
      BackedNextIff(kind, states[k - 1], steps[k - 1]);
    }
  }

  // In either store an enabled trigger's follow-up without a timer has an active run in every state of a run,
  // exactly when no trigger is turned on over an owed follow-up.
  lemma QueuedIsBackedIff(kind: StoreKind, states: seq<Sys>, steps: seq<Step>)
    requires IsRun(kind, states, steps)
    ensures (forall k :: 0 <= k < |states| ==> Backed(states[k].pipe))
        <==> (forall i :: 0 <= i < |steps| ==> !TurnsOnOwed(states[i], steps[i]))
  {
    if forall i :: 0 <= i < |steps| ==> !TurnsOnOwed(states[i], steps[i]) {
      forall k | 0 <= k < |states| ensures Backed(states[k].pipe) {
        BackedUntil(kind, states, steps, k);
      }
    } else {
      var i :| 0 <= i < |steps| && TurnsOnOwed(states[i], steps[i]);
      assert states[i + 1] == Next(kind, states[i], steps[i]);
      assert !Backed(states[i + 1].pipe) by { hide Active; }
    }
  }

  // Whether the claim's first clause alone, a fire that is due, already decides what the claim picks.
  ghost predicate FirstClauseDecides(p: Pipe) {
    Watching(p.cfg) ==> forall now: Instant :: Picked(p, now) <==> p.st.Some? && P.IsDue(p.st.value, now)
  }

  lemma FirstClauseDecidesIff(p: Pipe)
    ensures FirstClauseDecides(p) <==> Backed(p)
  {
    var now: Instant := 0;
    assert !Backed(p) ==> Picked(p, now) && !P.IsDue(p.st.value, now);
  }

  // So over a run the claim's second clause never picks anything exactly when no trigger is turned on over an
  // owed follow-up.
  lemma SecondClauseIsDeadIff(kind: StoreKind, states: seq<Sys>, steps: seq<Step>)
    requires IsRun(kind, states, steps)
    ensures (forall k :: 0 <= k < |states| ==> FirstClauseDecides(states[k].pipe))
        <==> (forall i :: 0 <= i < |steps| ==> !TurnsOnOwed(states[i], steps[i]))
  {
    QueuedIsBackedIff(kind, states, steps);
    hide FirstClauseDecides, Backed, TurnsOnOwed;
    forall k | 0 <= k < |states| ensures FirstClauseDecides(states[k].pipe) <==> Backed(states[k].pipe) {
      FirstClauseDecidesIff(states[k].pipe);
    }
  }

  // With PostgreSQL's guard always, and in the memory store as long as no fire is put back on a disabled
  // trigger: a disabled trigger is quiescent, and so none is ever turned on over an owed follow-up.
  lemma {:induction false} DisabledIsQuietAndQueuedIsBacked(kind: StoreKind, states: seq<Sys>, steps: seq<Step>, k: nat)
    requires IsRun(kind, states, steps) && k < |states|
    requires kind == Memory ==> forall i :: 0 <= i < |steps| ==> !ReturnsToDisabled(states[i], steps[i])
    ensures Quiet(states[k].pipe) && Backed(states[k].pipe)
  {
    if k > 0 {
      DisabledIsQuietAndQueuedIsBacked(kind, states, steps, k - 1);
      ReachableStatesAreSound(kind, states, steps, k - 1);
      assert states[k] == Next(kind, states[k - 1], steps[k - 1]);
      QuietNext(kind, states[k - 1], steps[k - 1]);
      BackedNextIff(kind, states[k - 1], steps[k - 1]);
    }
  }

  // In the memory store a disabled trigger stays quiescent over a run exactly when no fire is put back on it.
  lemma MemoryDisabledIsQuietIff(states: seq<Sys>, steps: seq<Step>)
    requires IsRun(Memory, states, steps)
    ensures (forall k :: 0 <= k < |states| ==> Quiet(states[k].pipe))
        <==> (forall i :: 0 <= i < |steps| ==> !ReturnsToDisabled(states[i], steps[i]))
  {
    if forall i :: 0 <= i < |steps| ==> !ReturnsToDisabled(states[i], steps[i]) {
      forall k | 0 <= k < |states| ensures Quiet(states[k].pipe) {
        DisabledIsQuietAndQueuedIsBacked(Memory, states, steps, k);
      }
    } else {
      var i :| 0 <= i < |steps| && ReturnsToDisabled(states[i], steps[i]);
      ReachableStatesAreSound(Memory, states, steps, i);
      assert states[i + 1] == Next(Memory, states[i], steps[i]);
      assert !Quiet(states[i + 1].pipe);
    }
  }

  ghost predicate Leads(kind: StoreKind, from: Sys, steps: seq<Step>, states: seq<Sys>) {
    && |states| == |steps| + 1 && states[0] == from
    && forall i :: 0 <= i < |steps| ==> Enabled(states[i], steps[i]) && states[i + 1] == Next(kind, states[i], steps[i])
  }

  function StorageTrigger(backendId: string, enabled: bool): Config {
    Config(Some(EventTrigger(enabled, [StorageMatch(backendId, "")], 1, 1, QueueOne, 5)), None, false)
  }

  // A new pipeline hears one event and a scheduler claims its fire.
  lemma OneFireInFlight(ev: TriggerEvent) returns (states: seq<Sys>, steps: seq<Step>)
    requires ev.etype == StorageCreated && ev.publishedAt == Absent
    ensures Leads(Memory, Sys(NEW_PIPE, [], {}), steps, states) && |steps| == 3
    ensures var last := states[3];
            last.pipe.cfg == StorageTrigger(ev.backendId, true) && last.pipe.st.Some? && |last.flights| == 1 && last.pipe.runs == map[] && last.used == {}
  {
    var cfg := StorageTrigger(ev.backendId, true);
    assert MatchesOne(cfg.trigger.value.matches[0], ev);
    steps := [Configure(cfg), Ingest(ev, 0, false), Claim(Seconds(1))];
    var s0 := Sys(NEW_PIPE, [], {});
    var s1 := Next(Memory, s0, steps[0]);
    var s2 := Next(Memory, s1, steps[1]);
    assert s2.pipe.st.value.fireAt == Some(Seconds(1)) && !s2.pipe.st.value.queued;
    states := [s0, s1, s2, Next(Memory, s2, steps[2])];
  }

  // It is turned off, a manual run starts, the fire is put back, the run ends without releasing it (the
  // trigger is off), and it is turned on again.
  lemma PutBackWhileOff(s: Sys, backendId: string, run: Run, failed: RunStatus) returns (states: seq<Sys>, steps: seq<Step>)
    requires s.pipe.cfg == StorageTrigger(backendId, true) && s.pipe.st.Some? && |s.flights| == 1 && s.pipe.runs == map[] && s.used == {}
    requires run.status == RunQueued && run.triggerEvents.None? && !IsActive(failed)
    ensures Leads(Memory, s, steps, states) && |steps| == 5
    ensures var last := states[5].pipe; Watching(last.cfg) && !Backed(last) && !Active(last.runs)
  {
    steps := [Configure(StorageTrigger(backendId, false)), Create("r", run, true), ReturnFired(0, 0), Finish("r", failed, None, 0),
              Configure(StorageTrigger(backendId, true))];
    var s1 := Next(Memory, s, steps[0]);
    var s2 := Next(Memory, s1, steps[1]);
    assert "r" in s2.pipe.runs;
    var s3 := Next(Memory, s2, steps[2]);
    assert s3.pipe.st.value.queued && s3.pipe.st.value.fireAt.None?;
    var s4 := Next(Memory, s3, steps[3]);
    assert s4.pipe.st == s3.pipe.st;
    states := [s, s1, s2, s3, s4, Next(Memory, s4, steps[4])];
  }

  // So the memory store reaches what its claim's second clause is there for: queued, no timer, nothing running.
  lemma MemoryReachesQueuedWithoutRun(ev: TriggerEvent, run: Run, failed: RunStatus) returns (states: seq<Sys>, steps: seq<Step>)
    requires ev.etype == StorageCreated && ev.publishedAt == Absent
    requires run.status == RunQueued && run.triggerEvents.None? && !IsActive(failed)
    ensures IsRun(Memory, states, steps)
    ensures var last := states[|states| - 1].pipe; Watching(last.cfg) && !Backed(last) && !Active(last.runs)
  {
    var states1, steps1 := OneFireInFlight(ev);
    var states2, steps2 := PutBackWhileOff(states1[3], ev.backendId, run, failed);
    states, steps := states1 + states2[1..], steps1 + steps2;
    forall i | 0 <= i < |steps| ensures Enabled(states[i], steps[i]) && states[i + 1] == Next(Memory, states[i], steps[i]) {
      if i >= 3 {
        assert states[i] == states2[i - 3] && states[i + 1] == states2[i - 2];
      }
    }
  }

  // ---- mutual exclusion and finality of runs ----

  predicate CreatesExclusively(step: Step) {
    match step
    case StartFired(_, _, _, exclusive) => exclusive
    case Create(_, run, exclusive) => IsActive(run.status) ==> exclusive
    case _ => true
  }

  ghost predicate AtMostOneActive(runs: map<string, Run>) {
    forall a, b :: a in runs && b in runs && IsActive(runs[a].status) && IsActive(runs[b].status) ==> a == b
  }

  lemma AtMostOneNext(kind: StoreKind, s: Sys, step: Step)
    requires AtMostOneActive(s.pipe.runs) && Sound(s) && Enabled(s, step) && CreatesExclusively(step)
    ensures AtMostOneActive(Next(kind, s, step).pipe.runs)
  {
  }

  // While a pipeline never allows concurrent runs, at most one of its runs is queued or running, however
  // manual, scheduled, dropped and event-fired starts, sweeps and finishes interleave.
  lemma {:induction false} AtMostOneActiveRun(kind: StoreKind, states: seq<Sys>, steps: seq<Step>, k: nat)
    requires IsRun(kind, states, steps) && k < |states|
    requires forall i :: 0 <= i < |steps| ==> CreatesExclusively(steps[i])
    ensures AtMostOneActive(states[k].pipe.runs)
  {
    if k > 0 {
      AtMostOneActiveRun(kind, states, steps, k - 1);
      ReachableStatesAreSound(kind, states, steps, k - 1);
      assert states[k] == Next(kind, states[k - 1], steps[k - 1]);
      AtMostOneNext(kind, states[k - 1], steps[k - 1]);
    }
  }

  // A run becomes running only by a mark, from being queued, and has from then on who runs it and since when.
  lemma OnlyMarkStarts(kind: StoreKind, s: Sys, step: Step, id: string)
    requires Enabled(s, step) && id in s.pipe.runs && id in Next(kind, s, step).pipe.runs && Sound(s)
    requires s.pipe.runs[id].status != Running && Next(kind, s, step).pipe.runs[id].status == Running
    ensures s.pipe.runs[id].status == RunQueued && step.Mark? && step.id == id
    ensures var r := Next(kind, s, step).pipe.runs[id];
            r.startedAt == Some(step.now) && r.heartbeatAt == Some(step.now) && r.workerId == Some(step.worker)
  {
  }

  // A run goes only by a prune that names it, and only once it has ended; such a prune takes it.
  lemma PruneRemovesIff(kind: StoreKind, s: Sys, step: Step, id: string)
    requires Enabled(s, step) && id in s.pipe.runs
    ensures id !in Next(kind, s, step).pipe.runs <==> step.Prune? && id in step.ids && s.pipe.runs[id].status !in {RunQueued, Running}
  {
  }

  // A run id once seen is a finished record, an active run, or gone for good.
  predicate Settled(s: Sys, id: string, record: Run) {
    id in s.used && (id in s.pipe.runs ==> s.pipe.runs[id] == record)
  }

  // A terminal run's record (status, error, finish time and all) never changes again; only retention removes it.
  lemma {:induction false} TerminalIsFinal(kind: StoreKind, states: seq<Sys>, steps: seq<Step>, i: nat, k: nat, id: string)
    requires IsRun(kind, states, steps) && i <= k < |states|
    requires id in states[i].pipe.runs && !IsActive(states[i].pipe.runs[id].status)
    ensures Settled(states[k], id, states[i].pipe.runs[id])
  {
    if k == i {
      ReachableStatesAreSound(kind, states, steps, i);
    } else {
      TerminalIsFinal(kind, states, steps, i, k - 1, id);
      assert states[k] == Next(kind, states[k - 1], steps[k - 1]);
    }
  }

  // Among the runs known before a step, only a winning finish makes one terminal.
  lemma OnlyFinishEnds(kind: StoreKind, s: Sys, step: Step, id: string)
    requires Enabled(s, step) && id in s.used
    requires id in Next(kind, s, step).pipe.runs && !IsActive(Next(kind, s, step).pipe.runs[id].status)
    ensures id in s.pipe.runs
    ensures var r := Next(kind, s, step).pipe.runs[id];
            if IsActive(s.pipe.runs[id].status)
            then step.Finish? && step.id == id && Wins(s.pipe, id) && r.status == step.status && r.error == step.error && r.finishedAt == Some(step.now)
            else r == s.pipe.runs[id]
  {
  }

  // A run that was active and is now terminal was finished by exactly one finish_run: there is one step that
  // won, it set the status, and no other finish of that run wins before or after it.
  lemma {:induction false} FinishedOnce(kind: StoreKind, states: seq<Sys>, steps: seq<Step>, i: nat, k: nat, id: string) returns (j: nat)
    requires IsRun(kind, states, steps) && i <= k < |states|
    requires id in states[i].pipe.runs && IsActive(states[i].pipe.runs[id].status)
    requires id in states[k].pipe.runs && !IsActive(states[k].pipe.runs[id].status)
    ensures i <= j < k && steps[j].Finish? && steps[j].id == id && Wins(states[j].pipe, id)
    ensures states[k].pipe.runs[id].status == steps[j].status && states[k].pipe.runs[id].error == steps[j].error
    ensures states[k].pipe.runs[id].finishedAt == Some(steps[j].now)
    decreases k
  {
    assert states[k] == Next(kind, states[k - 1], steps[k - 1]);
    ActiveStaysKnown(kind, states, steps, i, k - 1, id);
    OnlyFinishEnds(kind, states[k - 1], steps[k - 1], id);
    hide Next, Enabled;
    if id in states[k - 1].pipe.runs && IsActive(states[k - 1].pipe.runs[id].status) {
      j := k - 1;
    } else {
      j := FinishedOnce(kind, states, steps, i, k - 1, id);
    }
  }

  lemma {:induction false} ActiveStaysKnown(kind: StoreKind, states: seq<Sys>, steps: seq<Step>, i: nat, k: nat, id: string)
    requires IsRun(kind, states, steps) && i <= k < |states|
    requires id in states[i].pipe.runs
    ensures id in states[k].used
  {
    if k == i {
      ReachableStatesAreSound(kind, states, steps, i);
    } else {
      ActiveStaysKnown(kind, states, steps, i, k - 1, id);
      assert states[k] == Next(kind, states[k - 1], steps[k - 1]);
    }
  }

  lemma OneFinishWins(kind: StoreKind, states: seq<Sys>, steps: seq<Step>, i: nat, j: nat, id: string)
    requires IsRun(kind, states, steps) && i < |steps| && j < |steps|
    requires steps[i].Finish? && steps[i].id == id && Wins(states[i].pipe, id)
    requires steps[j].Finish? && steps[j].id == id && Wins(states[j].pipe, id)
    ensures i == j
  {
    var a, b := if i < j then i else j, if i < j then j else i;
    if a < b {
      assert states[a + 1] == Next(kind, states[a], steps[a]);
      TerminalIsFinal(kind, states, steps, a + 1, b, id);
    }
  }
}
