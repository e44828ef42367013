// The PostgreSQL store's transactions on one pipeline, statement by statement, read committed
// (src/booth_pipeline/store/postgres.py). A transaction's plain reads see what is committed when they run;
// rows locked FOR UPDATE (the trigger row, the pipeline row) are held until the transaction ends; nothing it
// writes is seen before it commits. So an ingest's "is a run active" and a finish's "is a follow-up queued"
// can both be out of date by the time either commits. The trigger row is created by the first ingest or outage
// that needs it: until that transaction commits, another creator waits for it, and everyone else finds no row.
module PostgresStore {
  import opened Basics
  import opened Triggers
  import opened AtomicStore
  import P = TriggerProtocol
  import Debounce
  import O = Outages

  // `created`: the transaction inserted the trigger row itself.
  datatype Txn =
    | IngestWait(ev: TriggerEvent, now: Instant, ownRun: bool)                            // wants the trigger row
    | IngestHeld(ev: TriggerEvent, now: Instant, ownRun: bool, t: EventTrigger, concurrent: bool, st: State, created: bool)
    | IngestReady(ev: TriggerEvent, now: Instant, ownRun: bool, t: EventTrigger, concurrent: bool, st: State, created: bool, active: bool)
    | Void(created: bool)                                                                 // has the row, but the trigger is off
    | FinishUpdated(run: string, now: Instant)                                            // run row written, not committed
    | FinishWait(run: string, now: Instant)                                               // saw queued, wants the trigger row
    | FinishHeld(run: string, now: Instant, t: EventTrigger, st: State)
    | FinishDone(run: string, held: bool)                                                 // nothing to release
    | ClaimHeld(now: Instant, st: State)
    | ClaimReady(now: Instant, t: EventTrigger, concurrent: bool, st: State, active: bool)
    | RequeueWait(now: Instant)
    | RequeueHeld(now: Instant, t: EventTrigger, st: State)
    | RequeueReady(now: Instant, t: EventTrigger, st: State, idle: bool)
    | RequeueVoid(held: bool)                                                             // no row, or the trigger is off: ignored
    | MissWait(now: Instant)
    | MissHeld(now: Instant, t: EventTrigger, st: State, created: bool)
    | CreateHeld                                                                          // exclusive: has the pipeline row
    | CreateReady(exclusive: bool)                                                        // counted no active run, or need not
    | ConfigHeld(cfg: Config)                                                             // pipeline row written, not committed
    | ConfigReset(cfg: Config, st: State)                                                 // and has the trigger row
    | ConfigMissed(cfg: Config)                                                           // and found no trigger row

  // One pipeline: committed rows (`active` are the ids of its queued and running runs, `told` what each run an
  // event fired was told), open transactions, and the claimed fires schedulers hold. `shared` says a run was
  // ever created without the lock; the record of a dropped slot is not one, as it is over when it is inserted.
  datatype Pg = Pg(row: Option<State>, cfg: Config, active: set<string>, used: set<string>, told: map<string, Fired>,
                   txns: map<nat, Txn>, flights: seq<Fired>, shared: bool)

  function RowOr(s: Pg): State { s.row.GetOr(EMPTY) }

  predicate HoldsRow(txn: Txn) {
    match txn
    case IngestHeld(_, _, _, _, _, _, _) => true
    case IngestReady(_, _, _, _, _, _, _, _) => true
    case Void(_) => true
    case FinishHeld(_, _, _, _) => true
    case FinishDone(_, held) => held
    case ClaimHeld(_, _) => true
    case ClaimReady(_, _, _, _, _) => true
    case RequeueHeld(_, _, _) => true
    case RequeueReady(_, _, _, _) => true
    case RequeueVoid(held) => held
    case MissHeld(_, _, _, _) => true
    case ConfigReset(_, _) => true
    case _ => false
  }

  // It inserted the row, and so has a key-share lock on the pipeline row its foreign key names.
  predicate Creates(txn: Txn) {
    (txn.IngestHeld? || txn.IngestReady? || txn.MissHeld? || txn.Void?) && txn.created
  }

  predicate HoldsPipeline(txn: Txn) {
    txn.CreateHeld? || (txn.CreateReady? && txn.exclusive) || txn.ConfigHeld? || txn.ConfigReset? || txn.ConfigMissed?
  }

  // SELECT ... FOR UPDATE on the pipeline row, with which a key-share lock conflicts; an UPDATE of it does not.
  predicate LocksKey(txn: Txn) { txn.CreateHeld? || (txn.CreateReady? && txn.exclusive) }

  predicate Finishing(txn: Txn, run: string) {
    (txn.FinishUpdated? || txn.FinishWait? || txn.FinishHeld? || txn.FinishDone?) && txn.run == run
  }

  predicate RowFree(s: Pg) { forall x :: x in s.txns ==> !HoldsRow(s.txns[x]) }

  predicate PipelineFree(s: Pg) { forall x :: x in s.txns ==> !HoldsPipeline(s.txns[x]) }

  predicate NoCreator(s: Pg) { forall x :: x in s.txns ==> !Creates(s.txns[x]) }

  // INSERT ... ON CONFLICT DO NOTHING and then SELECT ... FOR UPDATE: another creator or holder is waited for.
  predicate CanTakeRow(s: Pg) { RowFree(s) && (s.row.None? ==> forall x :: x in s.txns ==> !LocksKey(s.txns[x])) }

  // SELECT ... FOR UPDATE or UPDATE alone: a row that is not committed is not there, and not waited for.
  predicate CanFindRow(s: Pg) { s.row.None? || RowFree(s) }

  // Statements; `x` names the transaction.
  datatype Step =
    | BeginIngest(x: nat, ev: TriggerEvent, now: Instant, ownRun: bool) | LockIngest(x: nat) | ReadIngest(x: nat) | CommitIngest(x: nat) | CommitVoid(x: nat)
    | BeginFinish(x: nat, run: string, now: Instant) | CheckFinish(x: nat) | LockFinish(x: nat) | CommitFinish(x: nat)
    | BeginClaim(x: nat, now: Instant) | ReadClaim(x: nat) | CommitClaim(x: nat)
    | BeginRequeue(x: nat, now: Instant) | LockRequeue(x: nat) | ReadRequeue(x: nat) | CommitRequeue(x: nat, flight: nat)
    | BeginMiss(x: nat, now: Instant) | LockMiss(x: nat) | CommitMiss(x: nat)
    | BeginCreate(x: nat, exclusive: bool) | CountCreate(x: nat) | CommitCreate(x: nat, run: string, fired: Option<nat>)
    | BeginConfig(x: nat, cfg: Config) | LockConfig(x: nat) | CommitConfig(x: nat)
    | RecordSlot(x: nat, run: string)                                                     // a dropped slot's run, ended from the start
    | Lose(x: nat, flight: nat)

  predicate Enabled(s: Pg, step: Step) {
    var open := step.x in s.txns;
    match step
    case BeginIngest(x, ev, _, _) => !open && Watching(s.cfg) && Concerns(s.cfg.trigger.value, s.cfg.since, ev)
    case LockIngest(x) => open && s.txns[x].IngestWait? && CanTakeRow(s)
    case ReadIngest(x) => open && s.txns[x].IngestHeld?
    case CommitIngest(x) => open && s.txns[x].IngestReady?
    case CommitVoid(x) => open && s.txns[x].Void?
    case BeginFinish(x, run, _) => !open && run in s.active && forall y :: y in s.txns ==> !Finishing(s.txns[y], run)
    case CheckFinish(x) => open && s.txns[x].FinishUpdated?
    case LockFinish(x) => open && s.txns[x].FinishWait? && CanFindRow(s)
    case CommitFinish(x) => open && (s.txns[x].FinishHeld? || s.txns[x].FinishDone?)
    case BeginClaim(x, now) =>
      !open && RowFree(s) && s.row.Some? && P.Claimable(s.row.value, now) && (s.row.value.fireAt.None? ==> s.active == {})
    case ReadClaim(x) => open && s.txns[x].ClaimHeld?
    case CommitClaim(x) => open && s.txns[x].ClaimReady?
    case BeginRequeue(x, _) => !open
    case LockRequeue(x) => open && s.txns[x].RequeueWait? && CanFindRow(s)
    case ReadRequeue(x) => open && s.txns[x].RequeueHeld?
    case CommitRequeue(x, i) => open && (s.txns[x].RequeueReady? || s.txns[x].RequeueVoid?) && i < |s.flights|
    case BeginMiss(x, _) => !open && Watching(s.cfg)
    case LockMiss(x) => open && s.txns[x].MissWait? && CanTakeRow(s)
    case CommitMiss(x) => open && s.txns[x].MissHeld?
    case BeginCreate(x, exclusive) => !open && (exclusive ==> PipelineFree(s) && NoCreator(s))
    case CountCreate(x) => open && s.txns[x].CreateHeld?
    case CommitCreate(x, run, flight) => open && s.txns[x].CreateReady? && run !in s.used && (flight.Some? ==> flight.value < |s.flights|)
    case BeginConfig(x, _) => !open && PipelineFree(s)
    case LockConfig(x) => open && s.txns[x].ConfigHeld? && !Watching(s.txns[x].cfg) && CanFindRow(s)
    case CommitConfig(x) =>
      open && (s.txns[x].ConfigReset? || s.txns[x].ConfigMissed? || (s.txns[x].ConfigHeld? && Watching(s.txns[x].cfg)))
    case RecordSlot(x, run) => run !in s.used
    case Lose(x, i) => i < |s.flights|
  }

  function To(s: Pg, x: nat, txn: Txn): Pg { s.(txns := s.txns[x := txn]) }

  function End(s: Pg, x: nat): Pg { s.(txns := s.txns - {x}) }

  function OutcomeOf(txn: Txn): Outcome
    requires txn.IngestReady?
  {
    IngestOutcome(txn.t, txn.ownRun, txn.active, txn.concurrent)
  }

  function Next(s: Pg, step: Step): Pg
    requires Enabled(s, step)
  {
    match step
    case BeginIngest(x, ev, now, ownRun) => To(s, x, IngestWait(ev, now, ownRun))
    case LockIngest(x) =>
      var txn := s.txns[x];
      To(s, x, if Watching(s.cfg)
               then IngestHeld(txn.ev, txn.now, txn.ownRun, s.cfg.trigger.value, s.cfg.concurrent, RowOr(s), s.row.None?)
               else Void(s.row.None?))
    case ReadIngest(x) =>
      var txn := s.txns[x];
      To(s, x, IngestReady(txn.ev, txn.now, txn.ownRun, txn.t, txn.concurrent, txn.st, txn.created, s.active != {}))
    case CommitIngest(x) =>
      var txn := s.txns[x];
      End(s, x).(row := Some(Ingested(txn.st, txn.t, txn.ev, txn.now, OutcomeOf(txn))))
    case CommitVoid(x) => End(s, x).(row := if s.txns[x].created then Some(EMPTY) else s.row)
    case BeginFinish(x, run, now) => To(s, x, FinishUpdated(run, now))
    case CheckFinish(x) =>
      var txn := s.txns[x];
      To(s, x, if RowOr(s).queued then FinishWait(txn.run, txn.now) else FinishDone(txn.run, false))
    case LockFinish(x) =>
      var txn := s.txns[x];
      To(s, x, if !RowOr(s).queued then FinishDone(txn.run, false)
               else if Watching(s.cfg) then FinishHeld(txn.run, txn.now, s.cfg.trigger.value, RowOr(s))
               else FinishDone(txn.run, true))
    case CommitFinish(x) =>
      var txn := s.txns[x];
      End(s, x).(active := s.active - {txn.run}, row := if txn.FinishHeld? then Some(Finished(txn.st, txn.t, txn.now)) else s.row)
    case BeginClaim(x, now) => To(s, x, ClaimHeld(now, RowOr(s)))
    case ReadClaim(x) =>
      var txn := s.txns[x];
      if Watching(s.cfg) then To(s, x, ClaimReady(txn.now, s.cfg.trigger.value, s.cfg.concurrent, txn.st, s.active != {})) else End(s, x)
    case CommitClaim(x) =>
      var txn := s.txns[x];
      var startsNow := StartsNow(txn.active, txn.concurrent);
      var fire := P.ClaimedFire(txn.st, txn.t, txn.now, startsNow);
      End(s, x).(row := Some(P.ClaimedRow(txn.st, txn.t, txn.now, startsNow)), flights := if fire.Some? then s.flights + [fire.value] else s.flights)
    case BeginRequeue(x, now) => To(s, x, RequeueWait(now))
    case LockRequeue(x) =>
      To(s, x, if s.row.Some? && Watching(s.cfg) then RequeueHeld(s.txns[x].now, s.cfg.trigger.value, s.row.value)
               else RequeueVoid(s.row.Some?))
    case ReadRequeue(x) =>
      var txn := s.txns[x];
      To(s, x, RequeueReady(txn.now, txn.t, txn.st, s.active == {}))
    case CommitRequeue(x, i) =>
      var txn := s.txns[x];
      End(s, x).(flights := Remove(s.flights, i),
                 row := if txn.RequeueReady? then Some(P.RequeuedRow(txn.st, txn.t, s.flights[i], txn.now, txn.idle)) else s.row)
    case BeginMiss(x, now) => To(s, x, MissWait(now))
    case LockMiss(x) =>
      To(s, x, if Watching(s.cfg) then MissHeld(s.txns[x].now, s.cfg.trigger.value, RowOr(s), s.row.None?) else Void(s.row.None?))
    case CommitMiss(x) => End(s, x).(row := Some(Missed(s.txns[x].st, s.txns[x].t, s.txns[x].now)))
    case BeginCreate(x, exclusive) =>
      To(s, x, if exclusive then CreateHeld else CreateReady(false)).(shared := s.shared || !exclusive)
    case CountCreate(x) => if s.active != {} then End(s, x) else To(s, x, CreateReady(true))
    case CommitCreate(x, run, flight) =>
      End(s, x).(active := s.active + {run}, used := s.used + {run},
                 told := if flight.Some? then s.told[run := s.flights[flight.value]] else s.told,
                 flights := if flight.Some? then Remove(s.flights, flight.value) else s.flights)
    case BeginConfig(x, cfg) => To(s, x, ConfigHeld(cfg))
    case LockConfig(x) =>
      To(s, x, if s.row.Some? then ConfigReset(s.txns[x].cfg, s.row.value) else ConfigMissed(s.txns[x].cfg))
    case CommitConfig(x) =>
      End(s, x).(cfg := s.txns[x].cfg, row := if s.txns[x].ConfigReset? then Some(Reset(s.txns[x].st)) else s.row)
    case RecordSlot(_, run) => s.(used := s.used + {run})
    case Lose(_, i) => s.(flights := Remove(s.flights, i))
  }

  // Statements that are a transaction of their own.
  predicate Alone(step: Step) { step.Lose? || step.RecordSlot? }

  const INITIAL := Pg(None, Config(None, None, false), {}, {}, map[], map[], [], false)

  ghost predicate IsRun(states: seq<Pg>, steps: seq<Step>) {
    && |states| == |steps| + 1
    && states[0] == INITIAL
    && (forall i :: 0 <= i < |steps| ==> Enabled(states[i], steps[i]) && states[i + 1] == Next(states[i], steps[i]))
  }

  // ---- what the locks give ----

  // The copy of the trigger row a transaction works on.
  function CopyOf(txn: Txn): Option<State> {
    match txn
    case IngestHeld(_, _, _, _, _, st, _) => Some(st)
    case IngestReady(_, _, _, _, _, st, _, _) => Some(st)
    case FinishHeld(_, _, _, st) => Some(st)
    case ClaimHeld(_, st) => Some(st)
    case ClaimReady(_, _, _, st, _) => Some(st)
    case RequeueHeld(_, _, st) => Some(st)
    case RequeueReady(_, _, st, _) => Some(st)
    case MissHeld(_, _, st, _) => Some(st)
    case ConfigReset(_, st) => Some(st)
    case _ => None
  }

  // It read an enabled trigger after taking the row.
  predicate ReadEnabled(txn: Txn) {
    txn.IngestHeld? || txn.IngestReady? || txn.FinishHeld? || txn.ClaimReady? || txn.RequeueHeld? || txn.RequeueReady? || txn.MissHeld?
  }

  // One holder of the row at a time, and its copy is the committed row, or the empty one it created while none
  // is committed: no update is lost.
  ghost predicate Locked(s: Pg) {
    && (forall x, y :: x in s.txns && y in s.txns && HoldsRow(s.txns[x]) && HoldsRow(s.txns[y]) ==> x == y)
    && (forall x :: x in s.txns && CopyOf(s.txns[x]).Some? ==> CopyOf(s.txns[x]).value == RowOr(s))
    && (forall x :: x in s.txns && HoldsRow(s.txns[x]) ==> (Creates(s.txns[x]) <==> s.row.None?))
    && (forall x :: x in s.txns && s.txns[x].ClaimHeld? ==> P.Claimable(RowOr(s), s.txns[x].now))
    && (forall x :: x in s.txns && s.txns[x].ClaimReady? ==> P.Claimable(RowOr(s), s.txns[x].now))
    && (forall x :: x in s.txns && (s.txns[x].ConfigReset? || s.txns[x].ConfigMissed?) ==> !Watching(s.txns[x].cfg))
  }

  predicate Quiet(s: Pg) { !Watching(s.cfg) ==> Quiescent(RowOr(s)) }

  // A disabled trigger is quiescent, and no one who read it enabled is still going to write its row.
  ghost predicate QuietRow(s: Pg) {
    Quiet(s) && forall x :: x in s.txns && ReadEnabled(s.txns[x]) ==> Watching(s.cfg)
  }

  ghost predicate OnePipelineHolder(s: Pg) {
    forall x, y :: x in s.txns && y in s.txns && HoldsPipeline(s.txns[x]) && HoldsPipeline(s.txns[y]) ==> x == y
  }

  // As long as every creation was exclusive: at most one active run, none while a creation is past its count.
  ghost predicate OneRun(s: Pg) {
    && OnePipelineHolder(s)
    && (!s.shared ==>
          && |s.active| <= 1
          && (forall x :: x in s.txns && s.txns[x].CreateReady? ==> s.txns[x].exclusive && s.active == {}))
  }

  lemma CopiesAreHeld(txn: Txn)
    ensures CopyOf(txn).Some? ==> HoldsRow(txn)
    ensures ReadEnabled(txn) ==> HoldsRow(txn)
  {
  }

  // A transaction moves on with the row it has, or with the free row it just took.
  lemma LockedTo(s: Pg, x: nat, txn: Txn)
    requires Locked(s)
    requires MayBecome(s, x, txn)
    ensures Locked(To(s, x, txn))
  {
  }

  lemma LockedEnd(s: Pg, x: nat)
    requires Locked(s)
    ensures Locked(End(s, x))
  {
  }

  // Only the holder writes the row, so no other transaction's copy goes stale.
  lemma LockedWrite(s: Pg, x: nat, row: Option<State>)
    requires Locked(s) && x in s.txns && HoldsRow(s.txns[x])
    ensures Locked(End(s, x).(row := row))
  {
    var q := End(s, x);
    forall y | y in q.txns ensures !HoldsRow(q.txns[y]) && CopyOf(q.txns[y]).None? {
      CopiesAreHeld(q.txns[y]);
    }
  }

  predicate Ends(s: Pg, step: Step)
    requires Enabled(s, step)
  {
    step.x in s.txns && step.x !in Next(s, step).txns
  }

  // A step moves its own transaction on, leaving the row, or ends it, writing the row only if it holds it.
  lemma StepShape(s: Pg, step: Step)
    requires Enabled(s, step) && !Alone(step)
    ensures if Ends(s, step)
            then Next(s, step).txns == End(s, step.x).txns && (Next(s, step).row == s.row || HoldsRow(s.txns[step.x]))
            else step.x in Next(s, step).txns && Next(s, step).txns == s.txns[step.x := Next(s, step).txns[step.x]] && Next(s, step).row == s.row
  {
    hide Ingested, Finished, Missed, Reset, P.ClaimedRow, P.RequeuedRow, P.ClaimedFire, P.Claimable, Concerns, RowFree, PipelineFree, NoCreator, OutcomeOf, CanTakeRow, CanFindRow;
  }

  // What a transaction may become: it keeps or takes the row, with the committed contents.
  ghost predicate MayBecome(s: Pg, x: nat, txn: Txn) {
    && (HoldsRow(txn) ==> RowFree(s) || (x in s.txns && HoldsRow(s.txns[x])))
    && (HoldsRow(txn) ==> (Creates(txn) <==> s.row.None?))
    && (CopyOf(txn).Some? ==> CopyOf(txn).value == RowOr(s))
    && (txn.ClaimHeld? || txn.ClaimReady? ==> P.Claimable(RowOr(s), txn.now))
    && (txn.ConfigReset? || txn.ConfigMissed? ==> !Watching(txn.cfg))
  }

  lemma NewTxnRead(s: Pg, step: Step)
    requires Locked(s) && Enabled(s, step) && step.x in Next(s, step).txns
    requires step.ReadIngest? || step.ReadClaim? || step.ReadRequeue?
    ensures MayBecome(s, step.x, Next(s, step).txns[step.x])
  {
    assert CopyOf(s.txns[step.x]) == Some(RowOr(s));
  }

  predicate LocksToWrite(step: Step) { step.LockIngest? || step.LockMiss? || step.BeginClaim? }

  lemma NewTxnLock(s: Pg, step: Step)
    requires Locked(s) && Enabled(s, step) && step.x in Next(s, step).txns && LocksToWrite(step)
    ensures MayBecome(s, step.x, Next(s, step).txns[step.x])
  {
    hide Locked, RowFree, Concerns;
  }

  lemma NewTxnRequeue(s: Pg, step: Step)
    requires Locked(s) && Enabled(s, step) && step.x in Next(s, step).txns && step.LockRequeue?
    ensures MayBecome(s, step.x, Next(s, step).txns[step.x])
  {
    hide Locked, RowFree, P.Claimable;
  }

  lemma NewTxnConfig(s: Pg, step: Step)
    requires Locked(s) && Enabled(s, step) && step.x in Next(s, step).txns && step.LockConfig?
    ensures MayBecome(s, step.x, Next(s, step).txns[step.x])
  {
    hide Locked, RowFree, P.Claimable;
  }

  lemma NewTxnFinish(s: Pg, step: Step)
    requires Locked(s) && Enabled(s, step) && step.x in Next(s, step).txns && step.LockFinish?
    ensures MayBecome(s, step.x, Next(s, step).txns[step.x])
  {
    assert RowOr(s).queued ==> s.row.Some? && RowFree(s);
    hide Locked, RowFree, P.Claimable;
  }

  lemma NewTxnElse(s: Pg, step: Step)
    requires Enabled(s, step) && !Alone(step) && step.x in Next(s, step).txns
    requires !step.ReadIngest? && !step.ReadClaim? && !step.ReadRequeue?
    requires !LocksToWrite(step) && !step.LockFinish? && !step.LockRequeue? && !step.LockConfig?
    ensures MayBecome(s, step.x, Next(s, step).txns[step.x])
  {
    hide Ingested, Finished, Missed, Reset, P.ClaimedRow, P.RequeuedRow, P.ClaimedFire, P.Claimable, Concerns, RowFree, PipelineFree, NoCreator, OutcomeOf, CanTakeRow, CanFindRow;
  }

  lemma NewTxn(s: Pg, step: Step)
    requires Locked(s) && Enabled(s, step) && !Alone(step) && step.x in Next(s, step).txns
    ensures MayBecome(s, step.x, Next(s, step).txns[step.x])
  {
    hide Locked, Enabled, MayBecome;
    if step.ReadIngest? || step.ReadClaim? || step.ReadRequeue? {
      NewTxnRead(s, step);
    } else if LocksToWrite(step) {
      NewTxnLock(s, step);
    } else if step.LockFinish? {
      NewTxnFinish(s, step);
    } else if step.LockRequeue? {
      NewTxnRequeue(s, step);
    } else if step.LockConfig? {
      NewTxnConfig(s, step);
    } else {
      NewTxnElse(s, step);
    }
  }

  lemma LockedSame(s: Pg, q: Pg)
    requires Locked(s) && q.txns == s.txns && q.row == s.row
    ensures Locked(q)
  {
  }

  lemma LockedMoves(s: Pg, step: Step)
    requires Locked(s) && Enabled(s, step) && !Alone(step) && !Ends(s, step)
    ensures Locked(Next(s, step))
  {
    var q := Next(s, step);
    hide Enabled, Next, Locked, MayBecome, HoldsRow, Ends;
    StepShape(s, step);
    NewTxn(s, step);
    LockedTo(s, step.x, q.txns[step.x]);
    LockedSame(To(s, step.x, q.txns[step.x]), q);
  }

  lemma LockedEnds(s: Pg, step: Step)
    requires Locked(s) && Enabled(s, step) && !Alone(step) && Ends(s, step)
    ensures Locked(Next(s, step))
  {
    var q := Next(s, step);
    assert step.x in s.txns;
    hide Enabled, Next, Locked, HoldsRow, Ends;
    StepShape(s, step);
    if q.row == s.row {
      LockedEnd(s, step.x);
      LockedSame(End(s, step.x), q);
    } else {
      LockedWrite(s, step.x, q.row);
      LockedSame(End(s, step.x).(row := q.row), q);
    }
  }

  lemma LockedNext(s: Pg, step: Step)
    requires Locked(s) && Enabled(s, step)
    ensures Locked(Next(s, step))
  {
    if Alone(step) {
      LockedSame(s, Next(s, step));
    } else {
      hide Next, Locked, Enabled, Ends;
      if Ends(s, step) { LockedEnds(s, step); } else { LockedMoves(s, step); }
    }
  }

  predicate WritesRow(step: Step) {
    step.CommitIngest? || step.CommitFinish? || step.CommitClaim? || step.CommitRequeue? || step.CommitMiss? || step.CommitVoid?
  }

  // A turning-off that found no trigger row commits when one has come up meanwhile and waits for something, or
  // while someone who read the trigger enabled has it.
  ghost predicate TurnsOffUnseen(s: Pg, step: Step)
    requires Enabled(s, step)
  {
    && step.CommitConfig? && s.txns[step.x].ConfigMissed?
    && (!Quiescent(RowOr(s)) || exists y :: y in s.txns && ReadEnabled(s.txns[y]))
  }

  // Who writes the row had read an enabled trigger.
  lemma QuietRowWritten(s: Pg, step: Step)
    requires Locked(s) && QuietRow(s) && Enabled(s, step) && WritesRow(step)
    ensures QuietRow(Next(s, step))
  {
    hide Ingested, Finished, Missed, P.ClaimedRow, P.ClaimedFire, P.RequeuedRow, Quiescent, P.Claimable, OutcomeOf;
    var q := Next(s, step);
    assert q.cfg == s.cfg && q.txns == s.txns - {step.x};
    assert HoldsRow(s.txns[step.x]) && Creates(s.txns[step.x]) ==> RowOr(s) == EMPTY;
    hide Locked;
    assert RowOr(q) == RowOr(s) || ReadEnabled(s.txns[step.x]);
  }

  lemma QuietRowConfigured(s: Pg, step: Step)
    requires Locked(s) && QuietRow(s) && Enabled(s, step) && step.CommitConfig?
    ensures QuietRow(Next(s, step)) <==> !TurnsOffUnseen(s, step)
  {
    forall x | x in s.txns ensures ReadEnabled(s.txns[x]) ==> HoldsRow(s.txns[x]) { CopiesAreHeld(s.txns[x]); }
    hide Quiescent;
    var q := Next(s, step);
    if s.txns[step.x].ConfigReset? {
      ResetIsQuiescent(s.txns[step.x].st);
    } else if s.txns[step.x].ConfigMissed? {
      forall y | y in s.txns && ReadEnabled(s.txns[y]) ensures y in q.txns && q.txns[y] == s.txns[y] {}
    }
  }

  lemma ResetIsQuiescent(st: State)
    ensures Quiescent(Reset(st))
  {
  }

  lemma QuietRowElse(s: Pg, step: Step)
    requires QuietRow(s) && Enabled(s, step) && !WritesRow(step) && !step.CommitConfig?
    ensures QuietRow(Next(s, step))
  {
    hide Quiescent, P.Claimable, RowFree, PipelineFree, NoCreator, Concerns;
    var q := Next(s, step);
    assert q.cfg == s.cfg && q.row == s.row;
    forall x | x in q.txns && ReadEnabled(q.txns[x]) ensures Watching(q.cfg) {
      assert x == step.x || (x in s.txns && q.txns[x] == s.txns[x]);
    }
  }

  lemma QuietRowNextIff(s: Pg, step: Step)
    requires Locked(s) && QuietRow(s) && Enabled(s, step)
    ensures QuietRow(Next(s, step)) <==> !TurnsOffUnseen(s, step)
  {
    hide Next, QuietRow, Quiescent;
    if WritesRow(step) {
      QuietRowWritten(s, step);
    } else if step.CommitConfig? {
      QuietRowConfigured(s, step);
    } else {
      QuietRowElse(s, step);
    }
  }

  // ---- the steps that leave something waiting on a disabled trigger ----

  // A transaction that read the trigger enabled before it was turned off commits an event that waits, a fire put
  // back, or an outage; or a turning-off that found no row commits when one that waits for something has come up.
  ghost predicate Strands(s: Pg, step: Step)
    requires Enabled(s, step)
  {
    match step
    case CommitIngest(x) => !Watching(s.cfg) && (OutcomeOf(s.txns[x]) == Pending || OutcomeOf(s.txns[x]) == Queued)
    case CommitRequeue(x, _) => !Watching(s.cfg) && s.txns[x].RequeueReady? && s.txns[x].t.whenRunning == QueueOne
    case CommitMiss(x) => !Watching(s.cfg)
    case CommitConfig(x) => s.txns[x].ConfigMissed? && !Quiescent(RowOr(s))
    case _ => false
  }

  lemma StrandsIngest(s: Pg, step: Step)
    requires Locked(s) && Quiet(s) && Enabled(s, step) && (step.CommitIngest? || step.CommitMiss? || step.CommitVoid?)
    ensures Quiet(Next(s, step)) <==> !Strands(s, step)
  {
    assert CopyOf(s.txns[step.x]).Some? ==> CopyOf(s.txns[step.x]) == Some(RowOr(s));
    hide Locked, Record, FireAt, AfterGap;
  }

  lemma StrandsRequeue(s: Pg, step: Step)
    requires Locked(s) && Quiet(s) && Enabled(s, step) && (step.CommitRequeue? || step.CommitFinish?)
    ensures Quiet(Next(s, step)) <==> !Strands(s, step)
  {
    assert CopyOf(s.txns[step.x]).Some? ==> CopyOf(s.txns[step.x]) == Some(RowOr(s));
    hide Locked, AfterGap;
  }

  // A claim found something to deliver, so the trigger was not disabled and quiescent.
  lemma StrandsClaim(s: Pg, step: Step)
    requires Locked(s) && Quiet(s) && Enabled(s, step) && step.CommitClaim?
    ensures Quiet(Next(s, step)) <==> !Strands(s, step)
  {
    assert P.Claimable(RowOr(s), s.txns[step.x].now);
    hide P.ClaimedRow, P.ClaimedFire, Locked;
  }

  lemma StrandsConfig(s: Pg, step: Step)
    requires Locked(s) && Quiet(s) && Enabled(s, step) && step.CommitConfig?
    ensures Quiet(Next(s, step)) <==> !Strands(s, step)
  {
    if s.txns[step.x].ConfigReset? { ResetIsQuiescent(s.txns[step.x].st); }
    hide Quiescent;
  }

  lemma StrandsElse(s: Pg, step: Step)
    requires Quiet(s) && Enabled(s, step) && !WritesRow(step) && !step.CommitConfig?
    ensures Quiet(Next(s, step)) && !Strands(s, step)
  {
    hide Quiescent, P.Claimable, RowFree, PipelineFree, NoCreator, Concerns;
    var q := Next(s, step);
    assert q.cfg == s.cfg && q.row == s.row;
  }

  lemma QuietNextIff(s: Pg, step: Step)
    requires Locked(s) && Quiet(s) && Enabled(s, step)
    ensures Quiet(Next(s, step)) <==> !Strands(s, step)
  {
    hide Next, Quiet, Strands, Enabled, Locked;
    if step.CommitIngest? || step.CommitMiss? || step.CommitVoid? {
      StrandsIngest(s, step);
    } else if step.CommitRequeue? || step.CommitFinish? {
      StrandsRequeue(s, step);
    } else if step.CommitClaim? {
      StrandsClaim(s, step);
    } else if step.CommitConfig? {
      StrandsConfig(s, step);
    } else {
      StrandsElse(s, step);
    }
  }

  lemma HolderHadItOrFoundItFree(s: Pg, step: Step)
    requires Enabled(s, step) && step.x in Next(s, step).txns && HoldsPipeline(Next(s, step).txns[step.x]) && !Alone(step)
    ensures PipelineFree(s) || (step.x in s.txns && HoldsPipeline(s.txns[step.x]))
  {
    hide Ingested, Finished, Missed, Reset, P.ClaimedRow, P.RequeuedRow, P.ClaimedFire, P.Claimable, Concerns, RowFree, PipelineFree, NoCreator, OutcomeOf, CanTakeRow, CanFindRow;
  }

  lemma OneHolderTo(s: Pg, q: Pg, x: nat)
    requires OnePipelineHolder(s) && x in q.txns && q.txns == s.txns[x := q.txns[x]]
    requires HoldsPipeline(q.txns[x]) ==> PipelineFree(s) || (x in s.txns && HoldsPipeline(s.txns[x]))
    ensures OnePipelineHolder(q)
  {
    hide HoldsPipeline;
    forall y | y in q.txns && y != x ensures y in s.txns && q.txns[y] == s.txns[y] {}
  }

  lemma OneHolderEnd(s: Pg, q: Pg, x: nat)
    requires OnePipelineHolder(s) && q.txns == End(s, x).txns
    ensures OnePipelineHolder(q)
  {
    hide HoldsPipeline;
  }

  lemma OnePipelineHolderNext(s: Pg, step: Step)
    requires OnePipelineHolder(s) && Enabled(s, step)
    ensures OnePipelineHolder(Next(s, step))
  {
    var q := Next(s, step);
    if Alone(step) {
      assert q.txns == s.txns;
    } else {
      StepShape(s, step);
      hide Enabled, HoldsPipeline, OnePipelineHolder;
      if Ends(s, step) {
        OneHolderEnd(s, q, step.x);
      } else {
        if HoldsPipeline(q.txns[step.x]) { HolderHadItOrFoundItFree(s, step); }
        hide Next;
        OneHolderTo(s, q, step.x);
      }
    }
  }

  lemma OtherIsNotReady(s: Pg, step: Step)
    requires Enabled(s, step) && !step.BeginCreate? && !step.CountCreate? && !Alone(step) && step.x in Next(s, step).txns
    ensures !Next(s, step).txns[step.x].CreateReady?
  {
    hide Ingested, Finished, Missed, Reset, P.ClaimedRow, P.RequeuedRow, P.ClaimedFire, P.Claimable, Concerns, RowFree, PipelineFree, NoCreator, OutcomeOf, CanTakeRow, CanFindRow, Enabled;
  }

  lemma OnlyCountMakesReady(s: Pg, step: Step, x: nat)
    requires Enabled(s, step) && !step.BeginCreate? && !step.CountCreate?
    requires x in Next(s, step).txns && Next(s, step).txns[x].CreateReady?
    ensures x in s.txns && s.txns[x] == Next(s, step).txns[x]
  {
    if !Alone(step) {
      hide Next, Enabled;
      StepShape(s, step);
      if step.x in Next(s, step).txns { OtherIsNotReady(s, step); }
    }
  }

  lemma OneRunNextCreate(s: Pg, step: Step)
    requires OneRun(s) && Enabled(s, step) && OnePipelineHolder(Next(s, step))
    requires step.BeginCreate? || step.CountCreate? || step.CommitCreate? || step.CommitFinish?
    ensures OneRun(Next(s, step))
  {
    hide Finished;
    if step.CommitCreate? {
      assert HoldsPipeline(s.txns[step.x]) || s.shared;
    }
  }

  lemma OneRunNext(s: Pg, step: Step)
    requires OneRun(s) && Enabled(s, step)
    ensures OneRun(Next(s, step))
  {
    hide Next, Enabled, OnePipelineHolder;
    OnePipelineHolderNext(s, step);
    if step.BeginCreate? || step.CountCreate? || step.CommitCreate? || step.CommitFinish? {
      OneRunNextCreate(s, step);
    } else {
      var q := Next(s, step);
      ActiveStays(s, step);
      forall x | x in q.txns && q.txns[x].CreateReady? ensures x in s.txns && s.txns[x] == q.txns[x] {
        OnlyCountMakesReady(s, step, x);
      }
    }
  }

  lemma ActiveStays(s: Pg, step: Step)
    requires Enabled(s, step) && !step.BeginCreate? && !step.CountCreate? && !step.CommitCreate? && !step.CommitFinish?
    ensures Next(s, step).active == s.active && Next(s, step).shared == s.shared
  {
    hide Ingested, Finished, Missed, Reset, P.ClaimedRow, P.RequeuedRow, P.ClaimedFire, P.Claimable, Concerns, RowFree, PipelineFree, NoCreator, OutcomeOf, CanTakeRow, CanFindRow, Enabled;
  }

  lemma NothingHeldYet()
    ensures Locked(INITIAL) && OneRun(INITIAL) && QuietRow(INITIAL) && NoneMissed(INITIAL)
  {
  }

  lemma StepKeepsLocks(states: seq<Pg>, steps: seq<Step>, k: nat)
    requires IsRun(states, steps) && k < |steps| && Locked(states[k]) && OneRun(states[k])
    ensures Locked(states[k + 1]) && OneRun(states[k + 1])
  {
    hide Locked, OneRun, Next, Enabled;
    assert states[k + 1] == Next(states[k], steps[k]);
    LockedNext(states[k], steps[k]);
    OneRunNext(states[k], steps[k]);
  }

  lemma {:induction false} Reachable(states: seq<Pg>, steps: seq<Step>, k: nat)
    requires IsRun(states, steps) && k < |states|
    ensures Locked(states[k]) && OneRun(states[k])
  {
    hide Locked, OneRun, Next, Enabled;
    if k == 0 {
      NothingHeldYet();
    } else {
      Reachable(states, steps, k - 1);
      StepKeepsLocks(states, steps, k - 1);
    }
  }

  lemma {:induction false} QuietUntil(states: seq<Pg>, steps: seq<Step>, k: nat)
    requires IsRun(states, steps) && k < |states|
    requires forall i :: 0 <= i < k ==> !Strands(states[i], steps[i])
    ensures Quiet(states[k])
  {
    if k > 0 {
      hide Locked, OneRun, Next, Enabled, Strands, Quiet;
      QuietUntil(states, steps, k - 1);
      Reachable(states, steps, k - 1);
      assert states[k] == Next(states[k - 1], steps[k - 1]);
      QuietNextIff(states[k - 1], steps[k - 1]);
    }
  }

  // Exactly when a disabled trigger waits for nothing, whatever the interleaving: no transaction that read it
  // enabled commits something that waits after it was turned off, and no turning-off that found no row commits
  // over one that waits.
  lemma DisabledIsQuiescentIff(states: seq<Pg>, steps: seq<Step>)
    requires IsRun(states, steps)
    ensures (forall k :: 0 <= k < |states| ==> Quiet(states[k])) <==> (forall i :: 0 <= i < |steps| ==> !Strands(states[i], steps[i]))
  {
    hide Locked, OneRun, Next, Enabled, Strands, Quiet;
    if forall k :: 0 <= k < |states| ==> Quiet(states[k]) {
      forall i | 0 <= i < |steps| ensures !Strands(states[i], steps[i]) {
        Reachable(states, steps, i);
        assert Quiet(states[i]) && Quiet(states[i + 1]) && states[i + 1] == Next(states[i], steps[i]);
        QuietNextIff(states[i], steps[i]);
      }
    }
    if forall i :: 0 <= i < |steps| ==> !Strands(states[i], steps[i]) {
      forall k | 0 <= k < |states| ensures Quiet(states[k]) { QuietUntil(states, steps, k); }
    }
  }

  lemma {:induction false} QuietRowUntil(states: seq<Pg>, steps: seq<Step>, k: nat)
    requires IsRun(states, steps) && k < |states|
    requires forall i :: 0 <= i < k ==> !TurnsOffUnseen(states[i], steps[i])
    ensures QuietRow(states[k])
  {
    if k > 0 {
      hide Locked, OneRun, Next, Enabled, TurnsOffUnseen, QuietRow;
      QuietRowUntil(states, steps, k - 1);
      Reachable(states, steps, k - 1);
      assert states[k] == Next(states[k - 1], steps[k - 1]);
      QuietRowNextIff(states[k - 1], steps[k - 1]);
    }
  }

  // In terms of the turning-offs alone: a disabled trigger is quiescent with no one left who read it enabled and
  // will still write its row, exactly when no turning-off goes unseen.
  lemma TurnedOffForGoodIff(states: seq<Pg>, steps: seq<Step>)
    requires IsRun(states, steps)
    ensures (forall k :: 0 <= k < |states| ==> QuietRow(states[k])) <==>
            (forall i :: 0 <= i < |steps| ==> !TurnsOffUnseen(states[i], steps[i]))
  {
    hide Locked, OneRun, Next, Enabled, TurnsOffUnseen, QuietRow;
    if forall k :: 0 <= k < |states| ==> QuietRow(states[k]) {
      forall i | 0 <= i < |steps| ensures !TurnsOffUnseen(states[i], steps[i]) {
        Reachable(states, steps, i);
        assert QuietRow(states[i]) && QuietRow(states[i + 1]) && states[i + 1] == Next(states[i], steps[i]);
        QuietRowNextIff(states[i], steps[i]);
      }
    }
    if forall i :: 0 <= i < |steps| ==> !TurnsOffUnseen(states[i], steps[i]) {
      forall k | 0 <= k < |states| ensures QuietRow(states[k]) { QuietRowUntil(states, steps, k); }
    }
  }

  predicate NoneMissed(s: Pg) { forall x :: x in s.txns ==> !s.txns[x].ConfigMissed? }

  lemma NoneMissedNext(s: Pg, step: Step)
    requires NoneMissed(s) && Enabled(s, step) && (step.LockConfig? ==> s.row.Some?)
    ensures NoneMissed(Next(s, step))
  {
    hide Ingested, Finished, Missed, Reset, P.ClaimedRow, P.RequeuedRow, P.ClaimedFire, P.Claimable, Concerns, RowFree, PipelineFree, NoCreator, OutcomeOf, CanTakeRow, CanFindRow;
  }

  // So a trigger can be left with something waiting only by a turning-off that looks for the row before any was
  // committed: when every one finds it, a disabled trigger is quiescent throughout.
  lemma {:induction false} FoundRowsAreReset(states: seq<Pg>, steps: seq<Step>, k: nat)
    requires IsRun(states, steps) && k < |states|
    requires forall i :: 0 <= i < |steps| && steps[i].LockConfig? ==> states[i].row.Some?
    ensures NoneMissed(states[k]) && QuietRow(states[k])
  {
    if k > 0 {
      FoundRowsAreReset(states, steps, k - 1);
      var s, step := states[k - 1], steps[k - 1];
      assert !TurnsOffUnseen(s, step);
      hide Locked, OneRun, Next, Enabled, TurnsOffUnseen, QuietRow, NoneMissed;
      Reachable(states, steps, k - 1);
      assert states[k] == Next(s, step);
      QuietRowNextIff(s, step);
      NoneMissedNext(s, step);
    }
  }

  // Whatever the interleaving: with exclusive creations only, no two runs are active at once.
  lemma AtMostOneActive(states: seq<Pg>, steps: seq<Step>, k: nat)
    requires IsRun(states, steps) && k < |states| && !states[k].shared
    ensures |states[k].active| <= 1
  {
    Reachable(states, steps, k);
  }

  // ---- the interleaving follows the trigger protocol ----

  ghost predicate Follows(s: Pg, p: P.Protocol) {
    && p.st == RowOr(s) && SameFlights(p.flights, s.flights)
    && ToldIn(s.told, p.carried)
  }

  // The events of the ingests that committed during the first k steps, in order.
  function Heard(states: seq<Pg>, steps: seq<Step>, k: nat): seq<TriggerEvent>
    requires k <= |steps| && AllEnabled(states, steps)
  {
    if k == 0 then [] else Heard(states, steps, k - 1) + Hears(states[k - 1], steps[k - 1])
  }

  // The times of the fires whose claims committed during the first k steps.
  function FiresAt(states: seq<Pg>, steps: seq<Step>, k: nat): seq<Instant>
    requires k <= |steps| && AllEnabled(states, steps)
  {
    if k == 0 then [] else FiresAt(states, steps, k - 1) + Fires(states[k - 1], steps[k - 1])
  }

  function Fires(s: Pg, step: Step): seq<Instant>
    requires Enabled(s, step)
  {
    if step.CommitClaim? then
      var txn := s.txns[step.x];
      if P.ClaimedFire(txn.st, txn.t, txn.now, StartsNow(txn.active, txn.concurrent)).Some? then [txn.now] else []
    else []
  }

  // The clock readings of the committed ingests.
  function HeardAt(states: seq<Pg>, steps: seq<Step>, k: nat): seq<Instant>
    requires k <= |steps| && AllEnabled(states, steps)
  {
    if k == 0 then [] else HeardAt(states, steps, k - 1) + TimesHeard(states[k - 1], steps[k - 1])
  }

  function TimesHeard(s: Pg, step: Step): seq<Instant>
    requires Enabled(s, step)
  {
    if step.CommitIngest? then [s.txns[step.x].now] else []
  }

  // How many outages the trigger was told of, committed.
  function OutagesTo(states: seq<Pg>, steps: seq<Step>, k: nat): nat
    requires k <= |steps| && AllEnabled(states, steps)
  {
    if k == 0 then 0 else OutagesTo(states, steps, k - 1) + (if steps[k - 1].CommitMiss? then 1 else 0)
  }

  predicate AllEnabled(states: seq<Pg>, steps: seq<Step>) {
    |states| == |steps| + 1 && forall i :: 0 <= i < |steps| ==> Enabled(states[i], steps[i])
  }

  function Hears(s: Pg, step: Step): seq<TriggerEvent>
    requires Enabled(s, step)
  {
    if step.CommitIngest? then [s.txns[step.x].ev] else []
  }

  // Each commit that writes the trigger row or uses up a claimed fire is one protocol step; all else is none.
  function Performs(s: Pg, step: Step): Option<P.Step>
    requires Enabled(s, step)
  {
    match step
    case CommitIngest(x) =>
      var txn := s.txns[x];
      Some(P.Ingest(txn.t, txn.ev, txn.now, txn.ownRun, txn.active, txn.concurrent))
    case CommitFinish(x) => if s.txns[x].FinishHeld? then Some(P.Release(s.txns[x].t, s.txns[x].now)) else None
    case CommitClaim(x) =>
      var txn := s.txns[x];
      Some(P.Claim(txn.t, txn.now, StartsNow(txn.active, txn.concurrent)))
    case CommitRequeue(x, i) =>
      var txn := s.txns[x];
      if txn.RequeueReady? then Some(P.Requeue(i, txn.t, txn.now, txn.idle)) else Some(P.Lose(i))
    case CommitMiss(x) => Some(P.MissEvents(s.txns[x].t, s.txns[x].now))
    case CommitCreate(_, run, fired) => if fired.Some? then Some(P.Start(fired.value, run)) else None
    case CommitConfig(x) => if s.txns[x].ConfigReset? then Some(P.TurnOff) else None
    case Lose(_, i) => Some(P.Lose(i))
    case _ => None
  }

  lemma RowFollowsWrite(s: Pg, step: Step, p: P.Protocol)
    requires Locked(s) && Follows(s, p) && Enabled(s, step) && (step.CommitIngest? || step.CommitFinish?)
    ensures var did := Performs(s, step);
            (did.Some? ==> P.Enabled(p, did.value)) && After(p, did).st == RowOr(Next(s, step))
  {
    hide Ingested, Finished;
    assert CopyOf(s.txns[step.x]).Some? ==> CopyOf(s.txns[step.x]) == Some(p.st);
    hide Locked;
  }

  lemma RowFollowsMiss(s: Pg, step: Step, p: P.Protocol)
    requires Locked(s) && Follows(s, p) && Enabled(s, step) && (step.CommitMiss? || step.CommitVoid?)
    ensures var did := Performs(s, step);
            (did.Some? ==> P.Enabled(p, did.value)) && After(p, did).st == RowOr(Next(s, step))
  {
    hide Missed;
    if step.CommitVoid? {
      VoidHeld(s, step.x);
    } else {
      assert CopyOf(s.txns[step.x]) == Some(p.st);
    }
    hide Locked, SameFlights, ToldIn;
  }

  lemma RowFollowsConfig(s: Pg, step: Step, p: P.Protocol)
    requires Locked(s) && Follows(s, p) && Enabled(s, step) && step.CommitConfig?
    ensures var did := Performs(s, step);
            (did.Some? ==> P.Enabled(p, did.value)) && After(p, did).st == RowOr(Next(s, step))
  {
    hide Reset;
    assert CopyOf(s.txns[step.x]).Some? ==> CopyOf(s.txns[step.x]) == Some(p.st);
    hide Locked, SameFlights, ToldIn;
  }

  lemma RowFollowsRequeue(s: Pg, step: Step, p: P.Protocol)
    requires Locked(s) && Follows(s, p) && Enabled(s, step) && step.CommitRequeue?
    ensures var did := Performs(s, step);
            (did.Some? ==> P.Enabled(p, did.value)) && After(p, did).st == RowOr(Next(s, step))
  {
    hide P.RequeuedRow;
    assert CopyOf(s.txns[step.x]).Some? ==> CopyOf(s.txns[step.x]) == Some(p.st);
    hide Locked;
  }

  lemma RowFollowsElse(s: Pg, step: Step, p: P.Protocol)
    requires Follows(s, p) && Enabled(s, step) && !WritesRow(step) && !step.CommitConfig?
    ensures var did := Performs(s, step);
            (did.Some? ==> P.Enabled(p, did.value)) && After(p, did).st == RowOr(Next(s, step))
  {
    assert Next(s, step).row == s.row;
    hide Next;
  }

  lemma RowFollows(s: Pg, step: Step, p: P.Protocol)
    requires Locked(s) && Follows(s, p) && Enabled(s, step)
    ensures var did := Performs(s, step);
            (did.Some? ==> P.Enabled(p, did.value)) && After(p, did).st == RowOr(Next(s, step))
  {
    hide Locked, Follows, Next, Performs, P.Enabled, P.Next;
    if step.CommitClaim? {
      RowFollowsClaim(s, step, p);
    } else if step.CommitIngest? || step.CommitFinish? {
      RowFollowsWrite(s, step, p);
    } else if step.CommitRequeue? {
      RowFollowsRequeue(s, step, p);
    } else if step.CommitConfig? {
      RowFollowsConfig(s, step, p);
    } else if WritesRow(step) {
      RowFollowsMiss(s, step, p);
    } else {
      RowFollowsElse(s, step, p);
    }
  }

  lemma RowFollowsClaim(s: Pg, step: Step, p: P.Protocol)
    requires Locked(s) && Follows(s, p) && step.CommitClaim? && Enabled(s, step)
    ensures var did := Performs(s, step); did.Some? && P.Enabled(p, did.value) && After(p, did).st == RowOr(Next(s, step))
  {
    assert CopyOf(s.txns[step.x]) == Some(p.st) && P.Claimable(p.st, s.txns[step.x].now);
  }

  predicate MovesFlights(step: Step) { step.CommitClaim? || step.CommitRequeue? || step.CommitCreate? || step.Lose? }

  // Protocol steps that leave the claimed fires, the runs told and the fires made as they are.
  predicate RowOnly(step: P.Step) { step.Ingest? || step.Release? || step.MissEvents? || step.TurnOff? }

  lemma PerformsRowOnly(s: Pg, step: Step)
    requires Enabled(s, step) && !MovesFlights(step)
    ensures Performs(s, step).Some? ==> RowOnly(Performs(s, step).value)
  {
    hide Enabled;
  }

  lemma RowOnlyStays(p: P.Protocol, step: P.Step)
    requires RowOnly(step) && P.Enabled(p, step)
    ensures P.Next(p, step).flights == p.flights && P.Next(p, step).carried == p.carried && P.Next(p, step).fires == p.fires
  {
    hide Ingested, Finished, Missed, Reset;
  }

  lemma FlightsStay(s: Pg, step: Step, p: P.Protocol)
    requires Enabled(s, step) && !MovesFlights(step)
    requires var did := Performs(s, step); did.Some? ==> P.Enabled(p, did.value)
    ensures Next(s, step).flights == s.flights && After(p, Performs(s, step)).flights == p.flights
  {
    hide Next, Performs, P.Next, P.Enabled, Enabled;
    StoreFlightsStay(s, step);
    PerformsRowOnly(s, step);
    if Performs(s, step).Some? { RowOnlyStays(p, Performs(s, step).value); }
  }

  lemma StoreFlightsStay(s: Pg, step: Step)
    requires Enabled(s, step) && !MovesFlights(step)
    ensures Next(s, step).flights == s.flights
  {
    hide Ingested, Finished, Missed, Reset, P.ClaimedRow, P.RequeuedRow, P.ClaimedFire, P.Claimable, Concerns, RowFree, PipelineFree, NoCreator, OutcomeOf, CanTakeRow, CanFindRow, Enabled;
  }

  lemma FlightsMove(s: Pg, step: Step, p: P.Protocol)
    requires Follows(s, p) && Enabled(s, step) && MovesFlights(step) && !step.CommitClaim?
    requires var did := Performs(s, step); did.Some? ==> P.Enabled(p, did.value)
    ensures SameFlights(After(p, Performs(s, step)).flights, Next(s, step).flights)
  {
    hide P.ClaimedRow, P.RequeuedRow, P.ClaimedFire;
    match step
    case CommitRequeue(_, i) => SameFlightsRemove(p.flights, s.flights, i);
    case CommitCreate(_, _, fired) => if fired.Some? { SameFlightsRemove(p.flights, s.flights, fired.value); }
    case Lose(_, i) => SameFlightsRemove(p.flights, s.flights, i);
  }

  lemma FlightsClaimed(s: Pg, step: Step, p: P.Protocol)
    requires Locked(s) && Follows(s, p) && Enabled(s, step) && step.CommitClaim?
    requires var did := Performs(s, step); did.Some? ==> P.Enabled(p, did.value)
    ensures SameFlights(After(p, Performs(s, step)).flights, Next(s, step).flights)
  {
    assert CopyOf(s.txns[step.x]) == Some(RowOr(s));
  }

  lemma FlightsFollow(s: Pg, step: Step, p: P.Protocol)
    requires Locked(s) && Follows(s, p) && Enabled(s, step)
    requires var did := Performs(s, step); did.Some? ==> P.Enabled(p, did.value)
    ensures SameFlights(After(p, Performs(s, step)).flights, Next(s, step).flights)
  {
    hide Next, Performs, Enabled, P.Next, P.Enabled, After;
    if step.CommitClaim? { FlightsClaimed(s, step, p); } else if MovesFlights(step) { FlightsMove(s, step, p); } else { FlightsStay(s, step, p); }
  }

  ghost predicate ToldIn(told: map<string, Fired>, carried: seq<P.Carried>) {
    forall id :: id in told ==> exists c :: c in carried && c.runId == id && c.fired == told[id]
  }

  lemma ToldOneMore(told: map<string, Fired>, carried: seq<P.Carried>, c: P.Carried)
    requires ToldIn(told, carried)
    ensures ToldIn(told[c.runId := c.fired], carried + [c])
  {
    var more := carried + [c];
    assert more[|carried|] == c && c in more;
    forall id | id in told && id != c.runId ensures exists d :: d in more && d.runId == id && d.fired == told[id] {
      var d :| d in carried && d.runId == id && d.fired == told[id];
      assert d in more;
    }
  }

  lemma ToldStays(s: Pg, step: Step)
    requires Enabled(s, step) && !step.CommitCreate?
    ensures Next(s, step).told == s.told
  {
    hide Ingested, Finished, Missed, Reset, P.ClaimedRow, P.RequeuedRow, P.ClaimedFire, P.Claimable, Concerns, RowFree, PipelineFree, NoCreator, OutcomeOf, CanTakeRow, CanFindRow, Enabled;
  }

  lemma CarriedStays(s: Pg, step: Step, p: P.Protocol)
    requires Enabled(s, step) && !step.CommitCreate?
    requires var did := Performs(s, step); did.Some? ==> P.Enabled(p, did.value)
    ensures After(p, Performs(s, step)).carried == p.carried
  {
    hide Ingested, Finished, Missed, Reset, P.ClaimedRow, P.RequeuedRow, P.ClaimedFire, P.Claimable, Concerns, RowFree, PipelineFree, NoCreator, OutcomeOf, CanTakeRow, CanFindRow, Next, Enabled, P.Enabled;
  }

  lemma ToldFollow(s: Pg, step: Step, p: P.Protocol)
    requires Follows(s, p) && Enabled(s, step)
    requires var did := Performs(s, step); did.Some? ==> P.Enabled(p, did.value)
    ensures ToldIn(Next(s, step).told, After(p, Performs(s, step)).carried)
  {
    if !step.CommitCreate? {
      ToldStays(s, step);
      CarriedStays(s, step, p);
    } else if step.fired.Some? {
      var f := p.flights[step.fired.value];
      ToldOneMore(s.told, p.carried, P.Carried(step.run, f.fired, f.burst));
    }
  }

  lemma LogFollows(s: Pg, step: Step, p: P.Protocol)
    requires Enabled(s, step)
    requires var did := Performs(s, step); did.Some? ==> P.Enabled(p, did.value)
    ensures After(p, Performs(s, step)).log == p.log + Hears(s, step)
  {
    hide Ingested, Finished, Missed, Reset, P.ClaimedRow, P.RequeuedRow, P.ClaimedFire, P.Claimable, Concerns, RowFree, PipelineFree, NoCreator, OutcomeOf, CanTakeRow, CanFindRow, Enabled, P.Enabled;
  }

  // The events, times, fires and outages a commit adds.
  predicate AddsHistory(s: Pg, step: Step, p: P.Protocol, q: P.Protocol)
    requires Enabled(s, step)
  {
    && q.log == p.log + Hears(s, step) && q.heard == p.heard + TimesHeard(s, step)
    && q.fires == p.fires + Fires(s, step) && q.outages == p.outages + (if step.CommitMiss? then 1 else 0)
  }

  lemma OneStepFollows(s: Pg, step: Step, p: P.Protocol)
    requires Locked(s) && Follows(s, p) && Enabled(s, step)
    ensures var did := Performs(s, step);
            && (did.Some? ==> P.Enabled(p, did.value))
            && Follows(Next(s, step), After(p, did)) && AddsHistory(s, step, p, After(p, did))
  {
    hide Next, Performs, Enabled, P.Next, P.Enabled, After, Locked, SameFlights, ToldIn, AddsHistory, RowOr;
    RowFollows(s, step, p);
    FlightsFollow(s, step, p);
    ToldFollow(s, step, p);
    HistoryIsAdded(s, step, p);
  }

  lemma HistoryIsAdded(s: Pg, step: Step, p: P.Protocol)
    requires Locked(s) && Follows(s, p) && Enabled(s, step)
    requires var did := Performs(s, step); did.Some? ==> P.Enabled(p, did.value)
    ensures AddsHistory(s, step, p, After(p, Performs(s, step)))
  {
    hide Next, Performs, Enabled, P.Enabled, After, Locked, Follows, Hears, Fires, TimesHeard;
    HistoryFollows(s, step, p);
    FiresFollow(s, step, p);
    LogFollows(s, step, p);
  }

  lemma FiresFollow(s: Pg, step: Step, p: P.Protocol)
    requires Locked(s) && Follows(s, p) && Enabled(s, step)
    requires var did := Performs(s, step); did.Some? ==> P.Enabled(p, did.value)
    ensures After(p, Performs(s, step)).fires == p.fires + Fires(s, step)
  {
    if step.CommitClaim? {
      assert CopyOf(s.txns[step.x]) == Some(p.st);
      hide Locked, SameFlights, ToldIn, P.ClaimedRow, P.Released;
    } else {
      FiresStay(s, step, p);
    }
  }

  lemma FiresStay(s: Pg, step: Step, p: P.Protocol)
    requires Enabled(s, step) && !step.CommitClaim?
    requires var did := Performs(s, step); did.Some? ==> P.Enabled(p, did.value)
    ensures After(p, Performs(s, step)).fires == p.fires
  {
    hide Ingested, Finished, Missed, Reset, P.ClaimedRow, P.RequeuedRow, P.ClaimedFire, P.Claimable, Concerns, RowFree, PipelineFree, NoCreator, Next, Enabled, P.Enabled;
  }

  lemma HistoryFollows(s: Pg, step: Step, p: P.Protocol)
    requires Enabled(s, step)
    requires var did := Performs(s, step); did.Some? ==> P.Enabled(p, did.value)
    ensures After(p, Performs(s, step)).heard == p.heard + TimesHeard(s, step)
    ensures After(p, Performs(s, step)).outages == p.outages + (if step.CommitMiss? then 1 else 0)
  {
    hide Ingested, Finished, Missed, Reset, P.ClaimedRow, P.RequeuedRow, P.ClaimedFire, P.Claimable, Concerns, RowFree, PipelineFree, NoCreator, Next, P.Enabled, Enabled;
  }

  // What is committed in states[k] is p, over the events, the fires and the outages committed by then.
  ghost predicate Stands(states: seq<Pg>, steps: seq<Step>, k: nat, p: P.Protocol)
    requires k <= |steps| && AllEnabled(states, steps)
  {
    && Follows(states[k], p) && p.log == Heard(states, steps, k) && p.fires == FiresAt(states, steps, k)
    && p.heard == HeardAt(states, steps, k) && p.outages == OutagesTo(states, steps, k)
  }

  // A protocol step that one of the first n steps performs.
  ghost predicate Performed(states: seq<Pg>, steps: seq<Step>, n: nat, pstep: P.Step)
    requires AllEnabled(states, steps) && n <= |steps|
  {
    exists i :: 0 <= i < n && Performs(states[i], steps[i]) == Some(pstep)
  }

  ghost predicate StandsFor(states: seq<Pg>, steps: seq<Step>, ps: seq<P.Protocol>, psteps: seq<P.Step>, at: seq<nat>, n: nat)
    requires AllEnabled(states, steps) && n <= |steps|
  {
    && |at| == n + 1 && |ps| > 0 && at[n] == |ps| - 1
    && (forall k :: 0 <= k <= n ==> at[k] < |ps| && Stands(states, steps, k, ps[at[k]]))
    && (forall m :: 0 <= m < |psteps| ==> Performed(states, steps, n, psteps[m]))
  }

  // Any interleaving commits a run of the protocol over exactly the events its ingests and the fires its claims
  // commit; and every protocol step is performed by a commit.
  lemma InterleavingFollowsProtocol(states: seq<Pg>, steps: seq<Step>)
    returns (ps: seq<P.Protocol>, psteps: seq<P.Step>, at: seq<nat>)
    requires IsRun(states, steps)
    ensures P.IsRun(ps, psteps) && StandsFor(states, steps, ps, psteps, at, |steps|)
  {
    ps, psteps, at := FollowsUpTo(states, steps, |steps|);
  }

  lemma {:induction false} FollowsUpTo(states: seq<Pg>, steps: seq<Step>, n: nat)
    returns (ps: seq<P.Protocol>, psteps: seq<P.Step>, at: seq<nat>)
    requires IsRun(states, steps) && n <= |steps|
    ensures P.IsRun(ps, psteps) && StandsFor(states, steps, ps, psteps, at, n)
  {
    hide Follows, Next, Enabled, P.Next, P.Enabled, P.IsRun;
    if n == 0 {
      FollowsFromTheStart();
      ps, psteps, at := [P.INITIAL], [], [0];
    } else {
      ps, psteps, at := FollowsUpTo(states, steps, n - 1);
      ps, psteps, at := FollowsOnce(states, steps, n - 1, ps, psteps, at);
    }
  }

  lemma FollowsFromTheStart()
    ensures Follows(INITIAL, P.INITIAL) && P.IsRun([P.INITIAL], [])
  {
  }

  lemma StepStands(states: seq<Pg>, steps: seq<Step>, n: nat, p: P.Protocol)
    requires IsRun(states, steps) && n < |steps| && Stands(states, steps, n, p)
    ensures var did := Performs(states[n], steps[n]);
            (did.Some? ==> P.Enabled(p, did.value)) && Stands(states, steps, n + 1, After(p, did))
  {
    hide Follows, Next, Enabled, Performs, Hears, TimesHeard, Fires, P.Next, P.Enabled, Locked, OneRun, After;
    Reachable(states, steps, n);
    OneStepFollows(states[n], steps[n], p);
    assert states[n + 1] == Next(states[n], steps[n]);
  }

  lemma FollowsOnce(states: seq<Pg>, steps: seq<Step>, n: nat, ps: seq<P.Protocol>, psteps: seq<P.Step>, at: seq<nat>)
    returns (ps': seq<P.Protocol>, psteps': seq<P.Step>, at': seq<nat>)
    requires IsRun(states, steps) && n < |steps| && P.IsRun(ps, psteps) && StandsFor(states, steps, ps, psteps, at, n)
    ensures P.IsRun(ps', psteps') && StandsFor(states, steps, ps', psteps', at', n + 1)
  {
    hide Stands, Next, Enabled, Performs, Performed, P.Next, P.Enabled;
    var p, did := ps[|ps| - 1], Performs(states[n], steps[n]);
    StepStands(states, steps, n, p);
    var q := After(p, did);
    ps', psteps' := ps, psteps;
    if did.Some? {
      P.RunExtends(ps, psteps, did.value);
      ps', psteps' := ps + [q], psteps + [did.value];
    }
    at' := at + [|ps'| - 1];
    hide After, P.IsRun;
    forall k | 0 <= k <= n + 1 ensures at'[k] < |ps'| && Stands(states, steps, k, ps'[at'[k]]) {
      if k <= n { assert at'[k] == at[k] && ps'[at[k]] == ps[at[k]]; }
    }
    forall m | 0 <= m < |psteps'| ensures Performed(states, steps, n + 1, psteps'[m]) {
      if m < |psteps| { PerformedLater(states, steps, n, psteps[m]); } else { PerformedNow(states, steps, n); }
    }
  }

  lemma PerformedLater(states: seq<Pg>, steps: seq<Step>, n: nat, pstep: P.Step)
    requires AllEnabled(states, steps) && n < |steps| && Performed(states, steps, n, pstep)
    ensures Performed(states, steps, n + 1, pstep)
  {
    hide Performs, Enabled;
  }

  lemma PerformedNow(states: seq<Pg>, steps: seq<Step>, n: nat)
    requires AllEnabled(states, steps) && n < |steps| && Performs(states[n], steps[n]).Some?
    ensures Performed(states, steps, n + 1, Performs(states[n], steps[n]).value)
  {
    hide Performs, Enabled;
  }

  // ---- timing ----

  predicate ConfigsWithin(states: seq<Pg>, b: P.Bounds) { forall i :: 0 <= i < |states| ==> ConfigWithin(states[i].cfg, b) }

  // The settings a transaction read.
  function SettingsOf(txn: Txn): Option<EventTrigger> {
    match txn
    case IngestHeld(_, _, _, t, _, _, _) => Some(t)
    case IngestReady(_, _, _, t, _, _, _, _) => Some(t)
    case FinishHeld(_, _, t, _) => Some(t)
    case ClaimReady(_, t, _, _, _) => Some(t)
    case RequeueHeld(_, t, _) => Some(t)
    case RequeueReady(_, t, _, _) => Some(t)
    case MissHeld(_, t, _, _) => Some(t)
    case _ => None
  }

  predicate TxnWithin(txn: Txn, b: P.Bounds) { SettingsOf(txn).Some? ==> P.Within(SettingsOf(txn).value, b) }

  predicate TxnsWithin(s: Pg, b: P.Bounds) { forall x :: x in s.txns ==> TxnWithin(s.txns[x], b) }

  predicate Locks(step: Step) { step.LockIngest? || step.LockFinish? || step.ReadClaim? || step.LockRequeue? || step.LockMiss? }

  // A transaction reads the settings in force when it takes the row, and goes on with them.
  lemma SettingsLocked(s: Pg, step: Step, x: nat)
    requires Enabled(s, step) && Locks(step) && x in Next(s, step).txns
    ensures var got := SettingsOf(Next(s, step).txns[x]);
            got.Some? ==> got == s.cfg.trigger || (x in s.txns && got == SettingsOf(s.txns[x]))
  {
    hide Concerns, RowFree, PipelineFree, NoCreator, CanTakeRow, CanFindRow;
  }

  lemma SettingsKept(s: Pg, step: Step, x: nat)
    requires Enabled(s, step) && (step.ReadIngest? || step.ReadRequeue?) && x in Next(s, step).txns
    ensures x in s.txns && SettingsOf(Next(s, step).txns[x]) == SettingsOf(s.txns[x])
  {
  }

  lemma NoSettings(s: Pg, step: Step)
    requires Enabled(s, step) && !Locks(step) && !step.ReadIngest? && !step.ReadRequeue? && !Alone(step) && step.x in Next(s, step).txns
    ensures SettingsOf(Next(s, step).txns[step.x]).None?
  {
    hide Ingested, Finished, Missed, Reset, P.ClaimedRow, P.RequeuedRow, P.ClaimedFire, P.Claimable, Concerns, RowFree, PipelineFree, NoCreator, OutcomeOf, CanTakeRow, CanFindRow, Enabled;
  }

  lemma SettingsElse(s: Pg, step: Step, x: nat)
    requires Enabled(s, step) && !Locks(step) && !step.ReadIngest? && !step.ReadRequeue? && x in Next(s, step).txns
    ensures var got := SettingsOf(Next(s, step).txns[x]); got.Some? ==> x in s.txns && got == SettingsOf(s.txns[x])
  {
    if !Alone(step) {
      hide Next, Enabled, SettingsOf;
      StepShape(s, step);
      if step.x in Next(s, step).txns { NoSettings(s, step); }
    }
  }

  lemma SettingsRead(s: Pg, step: Step, x: nat)
    requires Enabled(s, step) && x in Next(s, step).txns
    ensures var got := SettingsOf(Next(s, step).txns[x]);
            got.Some? ==> got == s.cfg.trigger || (x in s.txns && got == SettingsOf(s.txns[x]))
  {
    hide Next, Enabled, SettingsOf;
    if Locks(step) {
      SettingsLocked(s, step, x);
    } else if step.ReadIngest? || step.ReadRequeue? {
      SettingsKept(s, step, x);
    } else {
      SettingsElse(s, step, x);
    }
  }

  lemma TxnsWithinNext(s: Pg, step: Step, b: P.Bounds)
    requires Enabled(s, step) && ConfigWithin(s.cfg, b) && TxnsWithin(s, b)
    ensures TxnsWithin(Next(s, step), b)
  {
    forall x | x in Next(s, step).txns ensures TxnWithin(Next(s, step).txns[x], b) { SettingsRead(s, step, x); hide Next, Enabled, SettingsOf; }
  }

  lemma {:induction false} AllTxnsWithin(states: seq<Pg>, steps: seq<Step>, k: nat, b: P.Bounds)
    requires IsRun(states, steps) && k < |states| && ConfigsWithin(states, b)
    ensures TxnsWithin(states[k], b)
  {
    hide Next, Enabled, TxnsWithin, ConfigWithin;
    if k == 0 {
      NoTxnsYet(b);
    } else {
      AllTxnsWithin(states, steps, k - 1, b);
      assert states[k] == Next(states[k - 1], steps[k - 1]);
      TxnsWithinNext(states[k - 1], steps[k - 1], b);
    }
  }

  lemma NoTxnsYet(b: P.Bounds)
    ensures TxnsWithin(INITIAL, b)
  {
  }

  lemma PerformsWithin(s: Pg, step: Step, b: P.Bounds)
    requires Enabled(s, step) && TxnsWithin(s, b)
    ensures Performs(s, step).Some? ==> P.StepWithin(Performs(s, step).value, b)
  {
    assert step.x in s.txns ==> TxnWithin(s.txns[step.x], b);
    hide P.Claimable, Concerns, RowFree, PipelineFree, NoCreator, CanTakeRow, CanFindRow;
  }

  lemma PerformedWithin(states: seq<Pg>, steps: seq<Step>, b: P.Bounds, pstep: P.Step)
    requires IsRun(states, steps) && ConfigsWithin(states, b) && Performed(states, steps, |steps|, pstep)
    ensures P.StepWithin(pstep, b)
  {
    hide Next, Enabled, Performs, TxnsWithin, ConfigsWithin, P.StepWithin;
    var i :| 0 <= i < |steps| && Performs(states[i], steps[i]) == Some(pstep);
    AllTxnsWithin(states, steps, i, b);
    PerformsWithin(states[i], steps[i], b);
  }

  // Whatever the clocks and the interleaving: the committed timer keeps to the minimum gap, the longest wait and the
  // debounce after an event, and the fires whose claims committed are the gap apart, n of them n - 1 gaps.
  lemma StoreKeepsTime(states: seq<Pg>, steps: seq<Step>, k: nat, b: P.Bounds)
    requires IsRun(states, steps) && k < |states| && ConfigsWithin(states, b)
    ensures P.Timed(RowOr(states[k]), b)
    ensures Debounce.NearSomeEvent(RowOr(states[k]), HeardAt(states, steps, k), b)
    ensures Debounce.Rising(HeardAt(states, steps, k)) ==> Debounce.NearLastEvent(RowOr(states[k]), b)
    ensures var fires := FiresAt(states, steps, k);
            forall i, j :: 0 <= i < j < |fires| ==> fires[j] - fires[i] >= (j - i) * Seconds(b.minGap)
  {
    hide Next, Enabled, Performed, P.IsRun, P.StepWithin, P.Timed, Debounce.NearSomeEvent, Debounce.NearLastEvent;
    var ps, psteps, at := InterleavingFollowsProtocol(states, steps);
    forall m | 0 <= m < |psteps| ensures P.StepWithin(psteps[m], b) { PerformedWithin(states, steps, b, psteps[m]); }
    assert Stands(states, steps, k, ps[at[k]]);
    FireTimesKept(ps, psteps, at[k], b);
    Debounce.RowIsDebounced(ps, psteps, at[k], b);
  }

  // What a committed ingest does to the committed row, by who wrote the event and what it read as running.
  lemma CommittedEventDoes(states: seq<Pg>, steps: seq<Step>, k: nat)
    requires IsRun(states, steps) && k < |steps| && steps[k].CommitIngest?
    ensures var txn, before, after := states[k].txns[steps[k].x], RowOr(states[k]), RowOr(states[k + 1]);
            var inTheWay := txn.active && !txn.concurrent;
            && (txn.ownRun ==> after == before.(ignoredOwnRuns := before.ignoredOwnRuns + 1))
            && (!txn.ownRun && !inTheWay ==> WaitsFor(before, after, txn.t, txn.now) && Joins(before, after, txn.ev) && !after.queued)
            && (!txn.ownRun && inTheWay ==> SameTimer(before, after))
            && (!txn.ownRun && inTheWay && txn.t.whenRunning == QueueOne ==> after.queued && Joins(before, after, txn.ev))
            && (!txn.ownRun && inTheWay && txn.t.whenRunning == Skip ==>
                  SameBurst(before, after) && after.skippedWhileRunning == before.skippedWhileRunning + 1)
  {
    Reachable(states, steps, k);
    var s, step := states[k], steps[k];
    var txn := s.txns[step.x];
    assert CopyOf(txn) == Some(RowOr(s));
    assert states[k + 1] == Next(s, step);
    IngestCases(RowOr(s), txn.t, txn.ev, txn.now, txn.ownRun, txn.active, txn.concurrent);
    hide Locked, OneRun, IsRun, Ingested, IngestOutcome, WaitsFor, Joins, SameTimer, SameBurst;
  }

  // The committed row, the claimed fires and the stored runs say that events may have been missed exactly when an
  // outage that was committed came with their burst; and each such outage is in exactly one place.
  lemma OutagesAreTold(states: seq<Pg>, steps: seq<Step>, k: nat) returns (l: O.Ledger)
    requires IsRun(states, steps) && k < |states|
    ensures O.Placed(l, OutagesTo(states, steps, k)) && (RowOr(states[k]).missedEvents <==> l.pending != [])
    ensures FiresFlagged(states[k].flights, l)
    ensures forall id :: id in states[k].told ==> RunFlagged(id, states[k].told[id], l)
  {
    hide Next, Enabled, Performed, P.IsRun, O.Placed;
    var ps, psteps, at := InterleavingFollowsProtocol(states, steps);
    assert Stands(states, steps, k, ps[at[k]]);
    O.OutagesAreTold(ps, psteps, at[k]);
    l := O.Ledgers(ps, psteps, at[k]);
    FlagsFollowCommits(states[k], ps[at[k]], l);
  }

  lemma FlagsFollowCommits(s: Pg, p: P.Protocol, l: O.Ledger)
    requires Follows(s, p) && O.Flagged(p, l)
    ensures (RowOr(s).missedEvents <==> l.pending != []) && FiresFlagged(s.flights, l)
    ensures forall id :: id in s.told ==> RunFlagged(id, s.told[id], l)
  {
    forall id | id in s.told ensures RunFlagged(id, s.told[id], l) {
      var c :| c in p.carried && c.runId == id && c.fired == s.told[id];
      var r :| 0 <= r < |p.carried| && p.carried[r] == c;
      assert O.RunFlagged(p.carried[r], l, r);
    }
  }

  lemma FireTimesKept(ps: seq<P.Protocol>, psteps: seq<P.Step>, k: nat, b: P.Bounds)
    requires P.IsRun(ps, psteps) && k < |ps| && forall m :: 0 <= m < |psteps| ==> P.StepWithin(psteps[m], b)
    ensures P.Timed(ps[k].st, b)
    ensures forall i, j :: 0 <= i < j < |ps[k].fires| ==> ps[k].fires[j] - ps[k].fires[i] >= (j - i) * Seconds(b.minGap)
  {
    P.FireTimeIsBounded(ps, psteps, k, b);
    forall i, j | 0 <= i < j < |ps[k].fires| ensures ps[k].fires[j] - ps[k].fires[i] >= (j - i) * Seconds(b.minGap) {
      P.FiresAreSpaced(ps, psteps, k, b, i, j);
    }
  }

  // Whatever the interleaving, every run that an event fired was told exactly a burst of the committed events: its
  // first 100 in burst order, and its size.
  lemma StoredRunsAreToldTheirBurst(states: seq<Pg>, steps: seq<Step>, k: nat, id: string) returns (burst: seq<P.Token>)
    requires IsRun(states, steps) && k < |states| && id in states[k].told
    ensures P.Tells(states[k].told[id].events, states[k].told[id].count, burst, Heard(states, steps, k))
  {
    var ps, psteps, at := InterleavingFollowsProtocol(states, steps);
    var p := ps[at[k]];
    assert Stands(states, steps, k, p);
    P.EveryEventIsInOnePlace(ps, psteps, at[k]);
    hide Next, Enabled, Heard, P.Tells;
    var c :| c in p.carried && c.runId == id && c.fired == states[k].told[id];
    burst := c.burst;
  }

  // ---- conservation in the committed counters ----

  // How many events leave the trigger's keeping with a step: with a created run, or for good.
  function Leaving(s: Pg, step: Step): nat
    requires Enabled(s, step)
  {
    match step
    case CommitCreate(_, _, fired) => if fired.Some? then s.flights[fired.value].count else 0
    case Lose(_, i) => s.flights[i].count
    case CommitRequeue(x, i) => if s.txns[x].RequeueReady? then 0 else s.flights[i].count
    case CommitConfig(x) => if s.txns[x].ConfigReset? then RowOr(s).eventCount else 0
    case _ => 0
  }

  function Left(states: seq<Pg>, steps: seq<Step>, k: nat): nat
    requires k <= |steps| && AllEnabled(states, steps)
  {
    if k == 0 then 0 else Left(states, steps, k - 1) + Leaving(states[k - 1], steps[k - 1])
  }

  function KeptNow(s: Pg): nat { RowKept(RowOr(s)) + Counts(s.flights) }

  lemma TimersKeep(st: State, t: EventTrigger, now: Instant)
    ensures RowKept(Finished(st, t, now)) == RowKept(st) && RowKept(Missed(st, t, now)) == RowKept(st)
  {
  }

  lemma KeptByRow(s: Pg, q: Pg)
    requires q.flights == s.flights
    ensures KeptNow(q) == KeptNow(s) - RowKept(RowOr(s)) + RowKept(RowOr(q))
  {
    hide RowKept, Counts;
  }

  lemma KeptIngested(s: Pg, step: Step)
    requires Locked(s) && Enabled(s, step) && step.CommitIngest?
    ensures KeptNow(Next(s, step)) == KeptNow(s) + 1
  {
    var txn := s.txns[step.x];
    assert CopyOf(txn) == Some(RowOr(s));
    IngestKeeps(txn.st, txn.t, txn.ev, txn.now, OutcomeOf(txn));
    hide RowKept, Locked, Ingested, KeptNow;
    KeptByRow(s, Next(s, step));
  }

  lemma KeptFinished(s: Pg, step: Step)
    requires Locked(s) && Enabled(s, step) && step.CommitFinish?
    ensures KeptNow(Next(s, step)) == KeptNow(s)
  {
    var txn := s.txns[step.x];
    assert CopyOf(txn).Some? ==> CopyOf(txn) == Some(RowOr(s));
    if txn.FinishHeld? { TimersKeep(txn.st, txn.t, txn.now); }
    hide RowKept, Locked, Finished, KeptNow;
    KeptByRow(s, Next(s, step));
  }

  lemma KeptMissed(s: Pg, step: Step)
    requires Locked(s) && Enabled(s, step) && step.CommitMiss?
    ensures KeptNow(Next(s, step)) == KeptNow(s)
  {
    var txn := s.txns[step.x];
    assert CopyOf(txn) == Some(RowOr(s));
    TimersKeep(txn.st, txn.t, txn.now);
    hide RowKept, Locked, Missed, KeptNow;
    KeptByRow(s, Next(s, step));
  }

  lemma VoidHeld(s: Pg, x: nat)
    requires Locked(s) && x in s.txns && s.txns[x].Void?
    ensures s.txns[x].created ==> s.row.None?
  {
    assert HoldsRow(s.txns[x]);
  }

  lemma KeptVoid(s: Pg, step: Step)
    requires Locked(s) && Enabled(s, step) && step.CommitVoid?
    ensures KeptNow(Next(s, step)) == KeptNow(s)
  {
    hide Locked, KeptNow;
    VoidHeld(s, step.x);
    var q := End(s, step.x).(row := if s.txns[step.x].created then Some(EMPTY) else s.row);
    assert Next(s, step) == q && RowOr(q) == RowOr(s);
    hide Next, Enabled;
    KeptByRow(s, q);
  }

  lemma KeptConfigured(s: Pg, step: Step)
    requires Locked(s) && Enabled(s, step) && step.CommitConfig?
    ensures KeptNow(Next(s, step)) + Leaving(s, step) == KeptNow(s)
  {
    var txn := s.txns[step.x];
    assert CopyOf(txn).Some? ==> CopyOf(txn) == Some(RowOr(s));
    if txn.ConfigReset? { ResetKeeps(txn.st); }
    hide RowKept, Locked, Reset, KeptNow;
    KeptByRow(s, Next(s, step));
  }

  lemma KeptWritten(s: Pg, step: Step)
    requires Locked(s) && Enabled(s, step) && (step.CommitIngest? || step.CommitFinish? || step.CommitMiss? || step.CommitConfig? || step.CommitVoid?)
    ensures KeptNow(Next(s, step)) + Leaving(s, step) == KeptNow(s) + |Hears(s, step)|
  {
    hide KeptNow, Locked, Next;
    if step.CommitIngest? { KeptIngested(s, step); } else if step.CommitConfig? { KeptConfigured(s, step); } else if step.CommitFinish? { KeptFinished(s, step); }
    else if step.CommitMiss? { KeptMissed(s, step); } else { KeptVoid(s, step); }
  }

  lemma KeptClaimed(s: Pg, step: Step)
    requires Locked(s) && Enabled(s, step) && step.CommitClaim?
    ensures KeptNow(Next(s, step)) == KeptNow(s)
  {
    var txn := s.txns[step.x];
    assert CopyOf(txn) == Some(RowOr(s));
    var fire := P.ClaimedFire(txn.st, txn.t, txn.now, StartsNow(txn.active, txn.concurrent));
    ClaimKeeps(txn.st, txn.t, txn.now, StartsNow(txn.active, txn.concurrent));
    if fire.Some? { assert (s.flights + [fire.value])[..|s.flights|] == s.flights; }
    hide RowKept, Locked, P.ClaimedRow, P.ClaimedFire;
  }

  lemma KeptRequeued(s: Pg, step: Step)
    requires Locked(s) && Enabled(s, step) && step.CommitRequeue?
    ensures KeptNow(Next(s, step)) + Leaving(s, step) == KeptNow(s)
  {
    var txn, i := s.txns[step.x], step.flight;
    assert CopyOf(txn).Some? ==> CopyOf(txn) == Some(RowOr(s));
    CountsRemove(s.flights, i);
    hide RowKept, Counts, Locked, P.RequeuedRow;
    if txn.RequeueReady? { RequeueKeeps(txn.st, txn.t, s.flights[i], txn.now, txn.idle); }
  }

  lemma KeptFlight(s: Pg, step: Step)
    requires Enabled(s, step) && (step.CommitCreate? || step.Lose?)
    ensures KeptNow(Next(s, step)) + Leaving(s, step) == KeptNow(s)
  {
    hide RowKept, Counts;
    if step.Lose? { CountsRemove(s.flights, step.flight); } else if step.fired.Some? { CountsRemove(s.flights, step.fired.value); }
  }

  lemma KeptElse(s: Pg, step: Step)
    requires Enabled(s, step) && !WritesRow(step) && !step.CommitConfig? && !MovesFlights(step)
    ensures KeptNow(Next(s, step)) == KeptNow(s) && Leaving(s, step) == 0 && Hears(s, step) == []
  {
    hide RowKept, Counts, P.Claimable, Concerns, RowFree, PipelineFree;
  }

  lemma KeptNext(s: Pg, step: Step)
    requires Locked(s) && Enabled(s, step)
    ensures KeptNow(Next(s, step)) + Leaving(s, step) == KeptNow(s) + |Hears(s, step)|
  {
    hide Locked, Enabled, Next, KeptNow, Leaving;
    if step.CommitClaim? {
      KeptClaimed(s, step);
      NothingLeaves(s, step);
    } else if step.CommitRequeue? {
      KeptRequeued(s, step);
    } else if step.CommitCreate? || step.Lose? {
      KeptFlight(s, step);
    } else if WritesRow(step) || step.CommitConfig? {
      KeptWritten(s, step);
    } else {
      KeptElse(s, step);
    }
  }

  lemma NothingLeaves(s: Pg, step: Step)
    requires Enabled(s, step) && step.CommitClaim?
    ensures Leaving(s, step) == 0
  {
  }

  // Every committed event was an own run's, was skipped, is pending, is in flight, or left with a run or for good.
  lemma {:induction false} EventsHeardAddUp(states: seq<Pg>, steps: seq<Step>, k: nat)
    requires IsRun(states, steps) && k < |states|
    ensures |Heard(states, steps, k)| == KeptNow(states[k]) + Left(states, steps, k)
  {
    if k > 0 {
      hide Locked, OneRun, Next, Enabled, KeptNow, Leaving, Hears;
      EventsHeardAddUp(states, steps, k - 1);
      AddsUpNext(states, steps, k - 1);
      hide IsRun;
    }
  }

  lemma AddsUpNext(states: seq<Pg>, steps: seq<Step>, k: nat)
    requires IsRun(states, steps) && k < |steps|
    ensures KeptNow(states[k + 1]) + Leaving(states[k], steps[k]) == KeptNow(states[k]) + |Hears(states[k], steps[k])|
  {
    hide Locked, OneRun, Next, Enabled, KeptNow, Leaving, Hears;
    Reachable(states, steps, k);
    assert states[k + 1] == Next(states[k], steps[k]);
    KeptNext(states[k], steps[k]);
  }

  // ---- the second clause of the claim ----

  // What is to be delivered has a timer or is queued, whatever the interleaving; so once its time has come, or
  // at any time if it has no timer and nothing is running, a claim can take it as soon as the row is free.
  lemma UndeliveredIsClaimable(states: seq<Pg>, steps: seq<Step>, k: nat, x: nat, now: Instant)
    requires IsRun(states, steps) && k < |states|
    requires var s := states[k];
             && (RowOr(s).eventCount > 0 || RowOr(s).missedEvents) && RowFree(s) && x !in s.txns
             && (if RowOr(s).fireAt.Some? then RowOr(s).fireAt.value <= now else s.active == {})
    ensures Enabled(states[k], BeginClaim(x, now))
  {
    CommittedRowIsAwake(states, steps, k);
    hide IsRun;
  }

  lemma CommittedRowIsAwake(states: seq<Pg>, steps: seq<Step>, k: nat)
    requires IsRun(states, steps) && k < |states|
    ensures P.Awake(RowOr(states[k]))
  {
    hide Next, Enabled, Heard, P.IsRun, P.Awake;
    var ps, psteps, at := InterleavingFollowsProtocol(states, steps);
    assert Stands(states, steps, k, ps[at[k]]);
    P.NoLostWakeUp(ps, psteps, at[k]);
  }

  // A claim that runs undisturbed on a follow-up no run released starts the run with everything that is
  // pending, or, within the minimum gap, sets the timer to the end of the gap.
  lemma SecondClauseRescues(s: Pg, x: nat, now: Instant)
    requires Locked(s) && RowFree(s) && x !in s.txns && Watching(s.cfg)
    requires RowOr(s).queued && RowOr(s).fireAt.None? && s.active == {}
    ensures Enabled(s, BeginClaim(x, now))
    ensures var s1 := Next(s, BeginClaim(x, now)); Enabled(s1, ReadClaim(x))
    ensures var s2 := Next(Next(s, BeginClaim(x, now)), ReadClaim(x)); Enabled(s2, CommitClaim(x))
    ensures var s3 := Next(Next(Next(s, BeginClaim(x, now)), ReadClaim(x)), CommitClaim(x));
            var st, ready := RowOr(s), AfterGap(now, RowOr(s).lastFiredAt, s.cfg.trigger.value);
            if ready <= now
            then s3.flights == s.flights + [FiredBy(st)] && Quiescent(RowOr(s3)) && RowOr(s3).lastFiredAt == Some(now)
            else s3.flights == s.flights && RowOr(s3).fireAt == Some(ready) && FiredBy(RowOr(s3)) == FiredBy(st)
  {
    var s1 := Next(s, BeginClaim(x, now));
    assert s1.txns[x] == ClaimHeld(now, RowOr(s));
    var s2 := Next(s1, ReadClaim(x));
    assert s2.txns[x] == ClaimReady(now, s.cfg.trigger.value, s.cfg.concurrent, RowOr(s), false);
  }

  ghost predicate Leads(from: Pg, steps: seq<Step>, states: seq<Pg>) {
    && |states| == |steps| + 1 && states[0] == from
    && forall i :: 0 <= i < |steps| ==> Enabled(states[i], steps[i]) && states[i + 1] == Next(states[i], steps[i])
  }

  lemma LeadsOn(a: seq<Pg>, asteps: seq<Step>, b: seq<Pg>, bsteps: seq<Step>)
    requires |a| == |asteps| + 1 && Leads(a[0], asteps, a) && Leads(a[|asteps|], bsteps, b)
    ensures Leads(a[0], asteps + bsteps, a + b[1..])
  {
    var states, steps := a + b[1..], asteps + bsteps;
    forall i | 0 <= i < |steps| ensures Enabled(states[i], steps[i]) && states[i + 1] == Next(states[i], steps[i]) {
      if i >= |asteps| {
        assert states[i] == b[i - |asteps|] && states[i + 1] == b[i + 1 - |asteps|];
      }
    }
  }

  lemma Configured(cfg: Config) returns (states: seq<Pg>, steps: seq<Step>)
    requires Watching(cfg)
    ensures Leads(INITIAL, steps, states) && |steps| == 2 && states[2] == INITIAL.(cfg := cfg)
  {
    steps := [BeginConfig(0, cfg), CommitConfig(0)];
    var s1 := INITIAL.(txns := map[0 := ConfigHeld(cfg)]);
    var s2 := INITIAL.(cfg := cfg);
    assert Next(INITIAL, steps[0]) == s1;
    assert Next(s1, steps[1]) == s2;
    states := [INITIAL, s1, s2];
  }

  lemma LeadsThree(s: Pg, a: Step, s1: Pg, b: Step, s2: Pg, c: Step, s3: Pg)
    requires Enabled(s, a) && Next(s, a) == s1 && Enabled(s1, b) && Next(s1, b) == s2 && Enabled(s2, c) && Next(s2, c) == s3
    ensures Leads(s, [a, b, c], [s, s1, s2, s3])
  {
    hide Next, Enabled;
  }

  // ---- a disabled trigger that waits ----

  lemma LeadsTwo(s: Pg, a: Step, s1: Pg, b: Step, s2: Pg)
    requires Enabled(s, a) && Next(s, a) == s1 && Enabled(s1, b) && Next(s1, b) == s2
    ensures Leads(s, [a, b], [s, s1, s2])
  {
    hide Next, Enabled;
  }

  function FirstIngest(ev: TriggerEvent, t: EventTrigger): Txn { IngestHeld(ev, 0, false, t, false, EMPTY, true) }

  // The first ingest inserts the row and reads the trigger as enabled.
  lemma FirstIngestBegins(s: Pg, ev: TriggerEvent)
    requires s == INITIAL.(cfg := StorageTrigger(ev.backendId, true)) && ev.etype == StorageCreated && ev.publishedAt == Absent
    ensures var a, b, s1 := BeginIngest(1, ev, 0, false), LockIngest(1), s.(txns := map[1 := IngestWait(ev, 0, false)]);
            && Enabled(s, a) && Next(s, a) == s1 && Enabled(s1, b)
            && Next(s1, b) == s.(txns := map[1 := FirstIngest(ev, s.cfg.trigger.value)])
  {
    assert MatchesOne(s.cfg.trigger.value.matches[0], ev);
  }

  // The trigger is turned off: the update of the pipeline row waits for nothing, and no trigger row is found.
  lemma OffBegins(s: Pg, off: Config, ev: TriggerEvent, t: EventTrigger)
    requires s.txns == map[1 := FirstIngest(ev, t)] && s.row.None? && !Watching(off)
    ensures Enabled(s, BeginConfig(2, off)) && Next(s, BeginConfig(2, off)) == s.(txns := s.txns[2 := ConfigHeld(off)])
  {
  }

  lemma OffMisses(s: Pg, was: Pg, off: Config)
    requires s == was.(txns := was.txns[2 := ConfigHeld(off)]) && s.row.None? && !Watching(off)
    ensures Enabled(s, LockConfig(2)) && Next(s, LockConfig(2)) == was.(txns := was.txns[2 := ConfigMissed(off)])
  {
    assert s.txns[2 := ConfigMissed(off)] == was.txns[2 := ConfigMissed(off)];
  }

  lemma OffCommits(s: Pg, was: Pg, off: Config)
    requires s == was.(txns := was.txns[2 := ConfigMissed(off)]) && 2 !in was.txns
    ensures Enabled(s, CommitConfig(2)) && Next(s, CommitConfig(2)) == was.(cfg := off)
  {
    assert s.txns - {2} == was.txns;
  }

  // The ingest goes on with what it read.
  lemma FirstIngestCommits(s: Pg, ev: TriggerEvent, t: EventTrigger)
    requires s.txns == map[1 := FirstIngest(ev, t)] && s.active == {}
    ensures var s1 := s.(txns := map[1 := IngestReady(ev, 0, false, t, false, EMPTY, true, false)]);
            && Enabled(s, ReadIngest(1)) && Next(s, ReadIngest(1)) == s1 && Enabled(s1, CommitIngest(1))
            && Next(s1, CommitIngest(1)) == s.(txns := map[], row := Some(Ingested(EMPTY, t, ev, 0, Pending)))
  {
    hide Ingested;
  }

  // A trigger turned off while the first ingest is open stays with that ingest's event and its timer.
  lemma DisabledTriggerWaits(ev: TriggerEvent) returns (states: seq<Pg>, steps: seq<Step>)
    requires ev.etype == StorageCreated && ev.publishedAt == Absent
    ensures IsRun(states, steps)
    ensures var last := states[|states| - 1];
            !Watching(last.cfg) && last.txns == map[] && RowOr(last).eventCount == 1 && RowOr(last).fireAt.Some? && !Quiet(last)
  {
    var on, off := StorageTrigger(ev.backendId, true), StorageTrigger(ev.backendId, false);
    var t := on.trigger.value;
    states, steps := Configured(on);
    var s := states[2];
    var held := map[1 := FirstIngest(ev, t)];
    var s1, s2 := s.(txns := map[1 := IngestWait(ev, 0, false)]), s.(txns := held);
    var s3, s4, s5 := s2.(txns := held[2 := ConfigHeld(off)]), s2.(txns := held[2 := ConfigMissed(off)]), s2.(cfg := off);
    var s6 := s5.(txns := map[1 := IngestReady(ev, 0, false, t, false, EMPTY, true, false)]);
    var s7 := s5.(txns := map[], row := Some(Ingested(EMPTY, t, ev, 0, Pending)));
    FirstIngestBegins(s, ev);
    OffBegins(s2, off, ev, t);
    OffMisses(s3, s2, off);
    OffCommits(s4, s2, off);
    FirstIngestCommits(s5, ev, t);
    assert RowOr(s7).eventCount == 1 && RowOr(s7).fireAt.Some? && !Quiet(s7);
    hide Next, Enabled, Ingested, Quiet;
    LeadsTwo(s, BeginIngest(1, ev, 0, false), s1, LockIngest(1), s2);
    LeadsThree(s2, BeginConfig(2, off), s3, LockConfig(2), s4, CommitConfig(2), s5);
    LeadsTwo(s5, ReadIngest(1), s6, CommitIngest(1), s7);
    states, steps := Chain(states, steps, [s, s1, s2], [BeginIngest(1, ev, 0, false), LockIngest(1)]);
    states, steps := Chain(states, steps, [s2, s3, s4, s5], [BeginConfig(2, off), LockConfig(2), CommitConfig(2)]);
    states, steps := Chain(states, steps, [s5, s6, s7], [ReadIngest(1), CommitIngest(1)]);
  }

  lemma Chain(a: seq<Pg>, asteps: seq<Step>, b: seq<Pg>, bsteps: seq<Step>) returns (states: seq<Pg>, steps: seq<Step>)
    requires Leads(INITIAL, asteps, a) && |b| > 0 && b[0] == a[|a| - 1] && Leads(b[0], bsteps, b)
    ensures Leads(INITIAL, steps, states) && IsRun(states, steps) && states[|states| - 1] == b[|b| - 1]
  {
    hide Next, Enabled;
    LeadsOn(a, asteps, b, bsteps);
    states, steps := a + b[1..], asteps + bsteps;
  }

  lemma CreateBegins(s: Pg)
    requires s.txns == map[]
    ensures Enabled(s, BeginCreate(0, true)) && Next(s, BeginCreate(0, true)) == s.(txns := map[0 := CreateHeld])
  {
  }

  lemma CreateCounts(s: Pg)
    requires s.txns == map[0 := CreateHeld] && s.active == {}
    ensures Enabled(s, CountCreate(0)) && Next(s, CountCreate(0)) == s.(txns := map[0 := CreateReady(true)])
  {
  }

  lemma CreateCommits(s: Pg)
    requires s.txns == map[0 := CreateReady(true)] && s.active == {} && s.used == {}
    ensures Enabled(s, CommitCreate(0, "r", None))
    ensures Next(s, CommitCreate(0, "r", None)) == s.(txns := map[], active := {"r"}, used := {"r"})
  {
  }

  lemma OneRunCreated(s: Pg) returns (states: seq<Pg>, steps: seq<Step>)
    requires s.txns == map[] && s.active == {} && s.used == {}
    ensures Leads(s, steps, states) && |steps| == 3 && states[3] == s.(active := {"r"}, used := {"r"})
  {
    var s1, s2, s3 := s.(txns := map[0 := CreateHeld]), s.(txns := map[0 := CreateReady(true)]), s.(active := {"r"}, used := {"r"});
    CreateBegins(s);
    CreateCounts(s1);
    CreateCommits(s2);
    hide Next, Enabled;
    LeadsThree(s, BeginCreate(0, true), s1, CountCreate(0), s2, CommitCreate(0, "r", None), s3);
    hide *;
    steps, states := [BeginCreate(0, true), CountCreate(0), CommitCreate(0, "r", None)], [s, s1, s2, s3];
  }

  lemma OneRunActive(cfg: Config) returns (states: seq<Pg>, steps: seq<Step>)
    requires Watching(cfg)
    ensures Leads(INITIAL, steps, states) && |steps| == 5
    ensures states[5] == Pg(None, cfg, {"r"}, {"r"}, map[], map[], [], false)
  {
    states, steps := Configured(cfg);
    var states2, steps2 := OneRunCreated(states[2]);
    hide Next, Enabled;
    LeadsOn(states, steps, states2, steps2);
    states, steps := states + states2[1..], steps + steps2;
  }

  // The ingest has the row and has read the run as active.
  lemma IngestReadsActive(s: Pg, ev: TriggerEvent) returns (states: seq<Pg>, steps: seq<Step>)
    requires s == Pg(None, StorageTrigger(ev.backendId, true), {"r"}, {"r"}, map[], map[], [], false)
    requires ev.etype == StorageCreated && ev.publishedAt == Absent
    ensures Leads(s, steps, states) && |steps| == 3
    ensures states[3] == s.(txns := map[1 := IngestReady(ev, 0, false, s.cfg.trigger.value, false, EMPTY, true, true)])
  {
    assert MatchesOne(s.cfg.trigger.value.matches[0], ev);
    steps := [BeginIngest(1, ev, 0, false), LockIngest(1), ReadIngest(1)];
    var s1 := Next(s, steps[0]);
    var s2 := Next(s1, steps[1]);
    assert "r" in s.active;
    states := [s, s1, s2, Next(s2, steps[2])];
  }

  // The finish sees nothing queued and commits.
  lemma FinishSeesNothing(s: Pg) returns (states: seq<Pg>, steps: seq<Step>)
    requires !RowOr(s).queued && s.active == {"r"} && 2 !in s.txns && forall y :: y in s.txns ==> s.txns[y].IngestReady?
    ensures Leads(s, steps, states) && |steps| == 3 && states[3] == s.(active := {})
  {
    var s1, s2 := s.(txns := s.txns[2 := FinishUpdated("r", 0)]), s.(txns := s.txns[2 := FinishDone("r", false)]);
    var s3 := s.(active := {});
    FinishBegins(s);
    FinishChecks(s1, s);
    FinishCommits(s2, s);
    hide Next, Enabled;
    LeadsThree(s, BeginFinish(2, "r", 0), s1, CheckFinish(2), s2, CommitFinish(2), s3);
    hide *;
    steps, states := [BeginFinish(2, "r", 0), CheckFinish(2), CommitFinish(2)], [s, s1, s2, s3];
  }

  lemma FinishBegins(s: Pg)
    requires s.active == {"r"} && 2 !in s.txns && forall y :: y in s.txns ==> s.txns[y].IngestReady?
    ensures Enabled(s, BeginFinish(2, "r", 0)) && Next(s, BeginFinish(2, "r", 0)) == s.(txns := s.txns[2 := FinishUpdated("r", 0)])
  {
  }

  lemma FinishChecks(s: Pg, was: Pg)
    requires s == was.(txns := was.txns[2 := FinishUpdated("r", 0)]) && !RowOr(s).queued
    ensures Enabled(s, CheckFinish(2)) && Next(s, CheckFinish(2)) == was.(txns := was.txns[2 := FinishDone("r", false)])
  {
    assert s.txns[2 := FinishDone("r", false)] == was.txns[2 := FinishDone("r", false)];
  }

  lemma FinishCommits(s: Pg, was: Pg)
    requires s == was.(txns := was.txns[2 := FinishDone("r", false)]) && 2 !in was.txns && s.active == {"r"}
    ensures Enabled(s, CommitFinish(2)) && Next(s, CommitFinish(2)) == was.(active := {})
  {
    assert s.txns - {2} == was.txns;
  }

  // Then the ingest commits.
  lemma FinishMissesIngest(s: Pg, ev: TriggerEvent, t: EventTrigger) returns (states: seq<Pg>, steps: seq<Step>)
    requires s.row.None? && s.active == {"r"} && t.whenRunning == QueueOne
    requires s.txns == map[1 := IngestReady(ev, 0, false, t, false, EMPTY, true, true)]
    ensures Leads(s, steps, states) && |steps| == 4
    ensures var last := states[4];
            RowOr(last).queued && RowOr(last).fireAt.None? && RowOr(last).eventCount == 1 && last.active == {} && last.txns == map[] && last.cfg == s.cfg
  {
    states, steps := FinishSeesNothing(s);
    var last := Next(states[3], CommitIngest(1));
    assert last.row == Some(Ingested(EMPTY, t, ev, 0, Queued)) && last.txns == map[] && last.active == {} && last.cfg == s.cfg;
    assert Leads(states[3], [CommitIngest(1)], [states[3], last]);
    hide Next, Enabled;
    LeadsOn(states, steps, [states[3], last], [CommitIngest(1)]);
    states, steps := states + [states[3], last][1..], steps + [CommitIngest(1)];
  }

  // So what cannot happen with atomic operations is reachable here: a follow-up is queued with no timer and no
  // run to release it. Only the claim's second clause (SecondClauseRescues) still delivers it.
  lemma QueuedWithoutRunIsReachable(ev: TriggerEvent) returns (states: seq<Pg>, steps: seq<Step>)
    requires ev.etype == StorageCreated && ev.publishedAt == Absent
    ensures IsRun(states, steps)
    ensures var last := states[|states| - 1];
            Watching(last.cfg) && RowOr(last).queued && RowOr(last).fireAt.None? && RowOr(last).eventCount > 0 && last.active == {} && last.txns == map[]
  {
    states, steps := OneRunActive(StorageTrigger(ev.backendId, true));
    var states2, steps2 := IngestReadsActive(states[5], ev);
    LeadsOn(states, steps, states2, steps2);
    states, steps := states + states2[1..], steps + steps2;
    var states3, steps3 := FinishMissesIngest(states[8], ev, states[8].cfg.trigger.value);
    LeadsOn(states, steps, states3, steps3);
    states, steps := states + states3[1..], steps + steps3;
  }
}
