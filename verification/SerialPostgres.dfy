// The PostgreSQL store's transactions one after another: with no other transaction open in between, the statements of
// each do to a pipeline exactly what the operation of the memory store does. Whatever PostgresStore adds comes from
// interleaving alone.
module SerialPostgres {
  import opened Basics
  import opened Triggers
  import opened PostgresStore
  import A = AtomicStore
  import P = TriggerProtocol

  // A run of statements from one state to another.
  ghost predicate Goes(states: seq<Pg>, steps: seq<Step>) {
    && |states| == |steps| + 1
    && forall i :: 0 <= i < |steps| ==> Moves(states[i], steps[i], states[i + 1])
  }

  predicate Moves(s: Pg, step: Step, q: Pg) { Enabled(s, step) && q == Next(s, step) }

  ghost predicate From(s: Pg, states: seq<Pg>, steps: seq<Step>, q: Pg) { Goes(states, steps) && states[0] == s && states[|steps|] == q }

  lemma Two(s: Pg, a: Pg, q: Pg, i: Step, j: Step)
    requires Moves(s, i, a) && Moves(a, j, q)
    ensures From(s, [s, a, q], [i, j], q)
  {
    hide Moves;
  }

  lemma Three(s: Pg, a: Pg, b: Pg, q: Pg, i: Step, j: Step, k: Step)
    requires Moves(s, i, a) && Moves(a, j, b) && Moves(b, k, q)
    ensures From(s, [s, a, b, q], [i, j, k], q)
  {
    hide Moves;
  }

  lemma Four(s: Pg, a: Pg, b: Pg, c: Pg, q: Pg, i: Step, j: Step, k: Step, l: Step)
    requires Moves(s, i, a) && Moves(a, j, b) && Moves(b, k, c) && Moves(c, l, q)
    ensures From(s, [s, a, b, c, q], [i, j, k, l], q)
  {
    hide Moves;
  }

  // The database between transactions, and the pipeline it holds.
  ghost predicate Holds(s: Pg, p: A.Pipe) {
    && s.txns == map[] && s.cfg == p.cfg && s.row == p.st
    && forall id :: id in s.active <==> id in p.runs && A.IsActive(p.runs[id].status)
  }

  lemma ActiveIs(s: Pg, p: A.Pipe)
    requires Holds(s, p)
    ensures A.Active(p.runs) <==> s.active != {}
  {
    if s.active != {} { var id :| id in s.active; }
  }

  // A transaction that is alone: nothing is locked but by it, and its end leaves none.
  lemma ByItself(s: Pg, x: nat, txn: Txn, next: Txn)
    requires s.txns == map[]
    ensures To(To(s, x, txn), x, next) == To(s, x, next) && End(To(s, x, txn), x) == s
    ensures !HoldsRow(txn) ==> RowFree(To(s, x, txn))
    ensures !LocksKey(txn) && !HoldsRow(txn) ==> CanTakeRow(To(s, x, txn))
  {
    assert To(To(s, x, txn), x, next).txns == To(s, x, next).txns;
    assert End(To(s, x, txn), x).txns == s.txns;
  }

  // ---- an ingest ----

  lemma IngestBegins(s: Pg, x: nat, ev: TriggerEvent, now: Instant, ownRun: bool)
    requires s.txns == map[] && A.Watching(s.cfg) && Concerns(s.cfg.trigger.value, s.cfg.since, ev)
    ensures Moves(s, BeginIngest(x, ev, now, ownRun), To(s, x, IngestWait(ev, now, ownRun)))
  {
    hide Concerns;
  }

  lemma IngestLocks(s: Pg, x: nat, ev: TriggerEvent, now: Instant, ownRun: bool, held: Txn)
    requires s.txns == map[] && A.Watching(s.cfg)
    requires held == IngestHeld(ev, now, ownRun, s.cfg.trigger.value, s.cfg.concurrent, RowOr(s), s.row.None?)
    ensures Moves(To(s, x, IngestWait(ev, now, ownRun)), LockIngest(x), To(s, x, held))
  {
    ByItself(s, x, IngestWait(ev, now, ownRun), held);
    hide CanTakeRow, RowFree;
  }

  lemma IngestReads(s: Pg, x: nat, held: Txn, ready: Txn)
    requires s.txns == map[] && held.IngestHeld?
    requires ready == IngestReady(held.ev, held.now, held.ownRun, held.t, held.concurrent, held.st, held.created, s.active != {})
    ensures Moves(To(s, x, held), ReadIngest(x), To(s, x, ready))
  {
    ByItself(s, x, held, ready);
    hide CanTakeRow, RowFree;
  }

  lemma IngestCommits(s: Pg, x: nat, ready: Txn)
    requires s.txns == map[] && ready.IngestReady?
    ensures Moves(To(s, x, ready), CommitIngest(x), s.(row := Some(Ingested(ready.st, ready.t, ready.ev, ready.now, OutcomeOf(ready)))))
  {
    ByItself(s, x, ready, ready);
    hide CanTakeRow, RowFree, Ingested, OutcomeOf;
  }

  lemma IngestIsAtomic(s: Pg, p: A.Pipe, x: nat, ev: TriggerEvent, now: Instant, ownRun: bool) returns (states: seq<Pg>, q: Pg)
    requires Holds(s, p) && A.Watching(p.cfg) && Concerns(p.cfg.trigger.value, p.cfg.since, ev)
    ensures From(s, states, [BeginIngest(x, ev, now, ownRun), LockIngest(x), ReadIngest(x), CommitIngest(x)], q)
    ensures Holds(q, A.IngestPipe(p, ev, now, ownRun)) && q.flights == s.flights && q.told == s.told
  {
    var t := s.cfg.trigger.value;
    var held := IngestHeld(ev, now, ownRun, t, s.cfg.concurrent, RowOr(s), s.row.None?);
    var ready := IngestReady(ev, now, ownRun, t, s.cfg.concurrent, RowOr(s), s.row.None?, s.active != {});
    IngestBegins(s, x, ev, now, ownRun);
    IngestLocks(s, x, ev, now, ownRun, held);
    IngestReads(s, x, held, ready);
    IngestCommits(s, x, ready);
    q := IngestLeaves(s, p, ev, now, ownRun, ready);
    hide From, Moves, To, Ingested, Holds, A.IngestPipe, OutcomeOf;
    Four(s, To(s, x, IngestWait(ev, now, ownRun)), To(s, x, held), To(s, x, ready), q,
         BeginIngest(x, ev, now, ownRun), LockIngest(x), ReadIngest(x), CommitIngest(x));
    states := [s, To(s, x, IngestWait(ev, now, ownRun)), To(s, x, held), To(s, x, ready), q];
  }

  lemma IngestLeaves(s: Pg, p: A.Pipe, ev: TriggerEvent, now: Instant, ownRun: bool, ready: Txn) returns (q: Pg)
    requires Holds(s, p) && A.Watching(p.cfg) && Concerns(p.cfg.trigger.value, p.cfg.since, ev)
    requires ready == IngestReady(ev, now, ownRun, s.cfg.trigger.value, s.cfg.concurrent, RowOr(s), s.row.None?, s.active != {})
    ensures q == s.(row := Some(Ingested(RowOr(s), s.cfg.trigger.value, ev, now, OutcomeOf(ready)))) && Holds(q, A.IngestPipe(p, ev, now, ownRun))
  {
    ActiveIs(s, p);
    hide Ingested, Concerns, IngestOutcome, A.Active;
    q := s.(row := Some(Ingested(RowOr(s), s.cfg.trigger.value, ev, now, OutcomeOf(ready))));
  }

  // ---- a claim ----

  lemma ClaimBegins(s: Pg, p: A.Pipe, x: nat, now: Instant)
    requires Holds(s, p)
    ensures Enabled(s, BeginClaim(x, now)) <==> A.Picked(p, now)
    ensures A.Picked(p, now) ==> Moves(s, BeginClaim(x, now), To(s, x, ClaimHeld(now, RowOr(s))))
  {
    ActiveIs(s, p);
    hide P.Claimable, A.Active;
  }

  lemma ClaimReads(s: Pg, x: nat, now: Instant)
    requires s.txns == map[]
    ensures A.Watching(s.cfg) ==>
              Moves(To(s, x, ClaimHeld(now, RowOr(s))), ReadClaim(x),
                    To(s, x, ClaimReady(now, s.cfg.trigger.value, s.cfg.concurrent, RowOr(s), s.active != {})))
    ensures !A.Watching(s.cfg) ==> Moves(To(s, x, ClaimHeld(now, RowOr(s))), ReadClaim(x), s)
  {
    ByItself(s, x, ClaimHeld(now, RowOr(s)), Void(false));
    if A.Watching(s.cfg) { ByItself(s, x, ClaimHeld(now, RowOr(s)), ClaimReady(now, s.cfg.trigger.value, s.cfg.concurrent, RowOr(s), s.active != {})); }
    hide CanTakeRow, RowFree;
  }

  lemma ClaimCommits(s: Pg, x: nat, ready: Txn, fire: Option<Fired>)
    requires s.txns == map[] && ready.ClaimReady?
    requires fire == P.ClaimedFire(ready.st, ready.t, ready.now, StartsNow(ready.active, ready.concurrent))
    ensures Moves(To(s, x, ready), CommitClaim(x),
                  s.(row := Some(P.ClaimedRow(ready.st, ready.t, ready.now, StartsNow(ready.active, ready.concurrent))),
                     flights := s.flights + if fire.Some? then [fire.value] else []))
  {
    ByItself(s, x, ready, ready);
    hide CanTakeRow, RowFree, P.ClaimedFire, P.ClaimedRow;
  }

  // A claim is made of exactly the pipelines the memory store would pick, and hands out the same fire.
  lemma ClaimIsAtomic(s: Pg, p: A.Pipe, x: nat, now: Instant) returns (states: seq<Pg>, steps: seq<Step>, q: Pg)
    requires Holds(s, p)
    ensures Enabled(s, BeginClaim(x, now)) <==> A.Picked(p, now)
    ensures A.Picked(p, now) ==>
              && steps == [BeginClaim(x, now), ReadClaim(x)] + (if A.Watching(p.cfg) then [CommitClaim(x)] else [])
              && From(s, states, steps, q) && Holds(q, A.ClaimPipe(p, now)) && q.told == s.told
              && q.flights == s.flights + (if A.ClaimFire(p, now).Some? then [A.ClaimFire(p, now).value] else [])
  {
    ActiveIs(s, p);
    ClaimBegins(s, p, x, now);
    ClaimReads(s, x, now);
    states, steps, q := [s], [], s;
    assert A.Picked(p, now) && !A.Watching(p.cfg) ==> A.ClaimPipe(p, now) == p && A.ClaimFire(p, now).None?;
    hide Enabled, From, Moves, To, A.ClaimPipe, A.ClaimFire, A.Picked, A.Active, A.Watching, P.ClaimedRow, P.ClaimedFire, P.Claimable;
    if A.Picked(p, now) {
      var held := ClaimHeld(now, RowOr(s));
      if A.Watching(p.cfg) {
        ClaimGoesOn(s, p, x, now);
        var ready := ClaimReady(now, s.cfg.trigger.value, s.cfg.concurrent, RowOr(s), s.active != {});
        q := AfterClaim(s, p, now);
        ClaimLeaves(s, p, now);
        hide Holds, AfterClaim;
        Three(s, To(s, x, held), To(s, x, ready), q, BeginClaim(x, now), ReadClaim(x), CommitClaim(x));
        states, steps := [s, To(s, x, held), To(s, x, ready), q], [BeginClaim(x, now), ReadClaim(x), CommitClaim(x)];
      } else {
        Two(s, To(s, x, held), s, BeginClaim(x, now), ReadClaim(x));
        states, steps := [s, To(s, x, held), s], [BeginClaim(x, now), ReadClaim(x)];
      }
    }
  }

  function AfterClaim(s: Pg, p: A.Pipe, now: Instant): Pg {
    s.(row := A.ClaimPipe(p, now).st, flights := s.flights + if A.ClaimFire(p, now).Some? then [A.ClaimFire(p, now).value] else [])
  }

  lemma ClaimLeaves(s: Pg, p: A.Pipe, now: Instant)
    requires Holds(s, p)
    ensures var q := AfterClaim(s, p, now);
            && Holds(q, A.ClaimPipe(p, now)) && q.told == s.told
            && q.flights == s.flights + (if A.ClaimFire(p, now).Some? then [A.ClaimFire(p, now).value] else [])
  {
    hide A.Picked, A.Watching, P.ClaimedRow, A.ClaimFire;
  }

  lemma ClaimGoesOn(s: Pg, p: A.Pipe, x: nat, now: Instant)
    requires Holds(s, p) && A.Picked(p, now) && A.Watching(p.cfg)
    ensures Moves(To(s, x, ClaimReady(now, s.cfg.trigger.value, s.cfg.concurrent, RowOr(s), s.active != {})), CommitClaim(x), AfterClaim(s, p, now))
  {
    ActiveIs(s, p);
    hide From, Moves, To, P.ClaimedRow, P.ClaimedFire, A.Active;
    ClaimCommits(s, x, ClaimReady(now, s.cfg.trigger.value, s.cfg.concurrent, RowOr(s), s.active != {}), A.ClaimFire(p, now));
  }

  // ---- a fire put back ----

  lemma RequeueBegins(s: Pg, x: nat, now: Instant)
    requires s.txns == map[]
    ensures Moves(s, BeginRequeue(x, now), To(s, x, RequeueWait(now)))
  {
  }

  lemma RequeueLocks(s: Pg, x: nat, now: Instant, locked: Txn)
    requires s.txns == map[]
    requires locked == if s.row.Some? && A.Watching(s.cfg) then RequeueHeld(now, s.cfg.trigger.value, s.row.value) else RequeueVoid(s.row.Some?)
    ensures Moves(To(s, x, RequeueWait(now)), LockRequeue(x), To(s, x, locked))
  {
    ByItself(s, x, RequeueWait(now), locked);
    hide RowFree;
  }

  lemma RequeueReads(s: Pg, x: nat, held: Txn)
    requires s.txns == map[] && held.RequeueHeld?
    ensures Moves(To(s, x, held), ReadRequeue(x), To(s, x, RequeueReady(held.now, held.t, held.st, s.active == {})))
  {
    ByItself(s, x, held, RequeueReady(held.now, held.t, held.st, s.active == {}));
    hide RowFree;
  }

  lemma RequeueCommits(s: Pg, x: nat, flight: nat, txn: Txn, row: Option<State>)
    requires s.txns == map[] && flight < |s.flights| && (txn.RequeueReady? || txn.RequeueVoid?)
    requires row == if txn.RequeueReady? then Some(P.RequeuedRow(txn.st, txn.t, s.flights[flight], txn.now, txn.idle)) else s.row
    ensures Moves(To(s, x, txn), CommitRequeue(x, flight), s.(row := row, flights := Remove(s.flights, flight)))
  {
    ByItself(s, x, txn, txn);
    hide RowFree, P.RequeuedRow, Remove;
  }

  // A fire is put back as in the memory store, but only on a trigger that is on.
  lemma RequeueIsAtomic(s: Pg, p: A.Pipe, x: nat, flight: nat, now: Instant) returns (states: seq<Pg>, steps: seq<Step>, q: Pg)
    requires Holds(s, p) && flight < |s.flights|
    ensures steps == [BeginRequeue(x, now), LockRequeue(x)] + (if p.st.Some? && A.Watching(p.cfg) then [ReadRequeue(x)] else []) +
                     [CommitRequeue(x, flight)]
    ensures From(s, states, steps, q)
    ensures Holds(q, A.RequeuePipe(A.Postgres, p, s.flights[flight], now)) && q.flights == Remove(s.flights, flight) && q.told == s.told
  {
    q := RequeueLeaves(s, p, flight, now);
    hide From, P.RequeuedRow, Remove, Holds, A.RequeuePipe, A.Watching;
    if p.st.Some? && A.Watching(p.cfg) {
      steps := [BeginRequeue(x, now), LockRequeue(x), ReadRequeue(x), CommitRequeue(x, flight)];
      states := RequeueTaken(s, x, flight, now, q);
    } else {
      steps := [BeginRequeue(x, now), LockRequeue(x), CommitRequeue(x, flight)];
      states := RequeueIgnored(s, x, flight, now, q);
    }
  }

  lemma RequeueLeaves(s: Pg, p: A.Pipe, flight: nat, now: Instant) returns (q: Pg)
    requires Holds(s, p) && flight < |s.flights|
    ensures s.row == p.st && s.cfg == p.cfg && s.txns == map[] && Holds(q, A.RequeuePipe(A.Postgres, p, s.flights[flight], now))
    ensures q == s.(flights := Remove(s.flights, flight),
                    row := if s.row.Some? && A.Watching(s.cfg)
                           then Some(P.RequeuedRow(s.row.value, s.cfg.trigger.value, s.flights[flight], now, s.active == {})) else s.row)
  {
    ActiveIs(s, p);
    hide P.RequeuedRow, A.Active, Remove;
    q := s.(flights := Remove(s.flights, flight), row := A.RequeuePipe(A.Postgres, p, s.flights[flight], now).st);
  }

  lemma RequeueTaken(s: Pg, x: nat, flight: nat, now: Instant, q: Pg) returns (states: seq<Pg>)
    requires s.txns == map[] && flight < |s.flights| && s.row.Some? && A.Watching(s.cfg)
    requires q == s.(flights := Remove(s.flights, flight),
                     row := Some(P.RequeuedRow(s.row.value, s.cfg.trigger.value, s.flights[flight], now, s.active == {})))
    ensures From(s, states, [BeginRequeue(x, now), LockRequeue(x), ReadRequeue(x), CommitRequeue(x, flight)], q)
  {
    hide From, Moves, To, P.RequeuedRow, Remove;
    var held := RequeueHeld(now, s.cfg.trigger.value, s.row.value);
    var ready := RequeueReady(now, held.t, held.st, s.active == {});
    var a, b, c := To(s, x, RequeueWait(now)), To(s, x, held), To(s, x, ready);
    RequeueBegins(s, x, now);
    RequeueLocks(s, x, now, held);
    RequeueReads(s, x, held);
    RequeueCommits(s, x, flight, ready, q.row);
    states := [s, a, b, c, q];
    Four(s, a, b, c, q, BeginRequeue(x, now), LockRequeue(x), ReadRequeue(x), CommitRequeue(x, flight));
  }

  lemma RequeueIgnored(s: Pg, x: nat, flight: nat, now: Instant, q: Pg) returns (states: seq<Pg>)
    requires s.txns == map[] && flight < |s.flights| && !(s.row.Some? && A.Watching(s.cfg)) && q == s.(flights := Remove(s.flights, flight))
    ensures From(s, states, [BeginRequeue(x, now), LockRequeue(x), CommitRequeue(x, flight)], q)
  {
    hide From, Moves, To, Remove;
    var void := RequeueVoid(s.row.Some?);
    var a, b := To(s, x, RequeueWait(now)), To(s, x, void);
    RequeueBegins(s, x, now);
    RequeueLocks(s, x, now, void);
    RequeueCommits(s, x, flight, void, s.row);
    states := [s, a, b, q];
    Three(s, a, b, q, BeginRequeue(x, now), LockRequeue(x), CommitRequeue(x, flight));
  }

  // ---- an outage ----

  lemma MissBegins(s: Pg, x: nat, now: Instant)
    requires s.txns == map[] && A.Watching(s.cfg)
    ensures Moves(s, BeginMiss(x, now), To(s, x, MissWait(now)))
  {
  }

  lemma MissLocks(s: Pg, x: nat, now: Instant, held: Txn)
    requires s.txns == map[] && A.Watching(s.cfg) && held == MissHeld(now, s.cfg.trigger.value, RowOr(s), s.row.None?)
    ensures Moves(To(s, x, MissWait(now)), LockMiss(x), To(s, x, held))
  {
    ByItself(s, x, MissWait(now), held);
    hide RowFree, CanTakeRow;
  }

  lemma MissCommits(s: Pg, x: nat, held: Txn)
    requires s.txns == map[] && held.MissHeld?
    ensures Moves(To(s, x, held), CommitMiss(x), s.(row := Some(Missed(held.st, held.t, held.now))))
  {
    ByItself(s, x, held, held);
    hide RowFree, Missed;
  }

  lemma MissIsAtomic(s: Pg, p: A.Pipe, x: nat, now: Instant) returns (states: seq<Pg>, q: Pg)
    requires Holds(s, p) && A.Watching(p.cfg)
    ensures From(s, states, [BeginMiss(x, now), LockMiss(x), CommitMiss(x)], q)
    ensures Holds(q, A.MissPipe(p, now)) && q.flights == s.flights && q.told == s.told
  {
    var held := MissHeld(now, s.cfg.trigger.value, RowOr(s), s.row.None?);
    MissBegins(s, x, now);
    MissLocks(s, x, now, held);
    MissCommits(s, x, held);
    hide From, Moves, To, Missed;
    q := s.(row := Some(Missed(RowOr(s), s.cfg.trigger.value, now)));
    Three(s, To(s, x, MissWait(now)), To(s, x, held), q, BeginMiss(x, now), LockMiss(x), CommitMiss(x));
    states := [s, To(s, x, MissWait(now)), To(s, x, held), q];
  }

  // ---- the end of a run ----

  lemma FinishBegins(s: Pg, p: A.Pipe, x: nat, run: string, now: Instant)
    requires Holds(s, p)
    ensures Enabled(s, BeginFinish(x, run, now)) <==> A.Wins(p, run)
    ensures A.Wins(p, run) ==> Moves(s, BeginFinish(x, run, now), To(s, x, FinishUpdated(run, now)))
  {
  }

  lemma FinishChecks(s: Pg, x: nat, run: string, now: Instant, checked: Txn)
    requires s.txns == map[] && checked == if RowOr(s).queued then FinishWait(run, now) else FinishDone(run, false)
    ensures Moves(To(s, x, FinishUpdated(run, now)), CheckFinish(x), To(s, x, checked))
  {
    ByItself(s, x, FinishUpdated(run, now), checked);
    hide RowFree;
  }

  lemma FinishLocks(s: Pg, x: nat, run: string, now: Instant, locked: Txn)
    requires s.txns == map[] && RowOr(s).queued
    requires locked == if A.Watching(s.cfg) then FinishHeld(run, now, s.cfg.trigger.value, RowOr(s)) else FinishDone(run, true)
    ensures Moves(To(s, x, FinishWait(run, now)), LockFinish(x), To(s, x, locked))
  {
    ByItself(s, x, FinishWait(run, now), locked);
    hide RowFree;
  }

  lemma FinishCommits(s: Pg, x: nat, txn: Txn, row: Option<State>)
    requires s.txns == map[] && (txn.FinishHeld? || txn.FinishDone?)
    requires row == if txn.FinishHeld? then Some(Finished(txn.st, txn.t, txn.now)) else s.row
    ensures Moves(To(s, x, txn), CommitFinish(x), s.(active := s.active - {txn.run}, row := row))
  {
    ByItself(s, x, txn, txn);
    hide RowFree, Finished;
  }

  // A finish can begin exactly when it wins, and releases a follow-up that is owed.
  lemma FinishIsAtomic(s: Pg, p: A.Pipe, x: nat, run: string, status: A.RunStatus, error: Option<string>, now: Instant)
    returns (states: seq<Pg>, steps: seq<Step>, q: Pg)
    requires Holds(s, p) && !A.IsActive(status)
    ensures Enabled(s, BeginFinish(x, run, now)) <==> A.Wins(p, run)
    ensures A.Wins(p, run) ==>
              && steps == [BeginFinish(x, run, now), CheckFinish(x)] + (if RowOr(s).queued then [LockFinish(x)] else []) + [CommitFinish(x)]
              && From(s, states, steps, q) && Holds(q, A.FinishPipe(p, run, status, error, now)) && q.flights == s.flights && q.told == s.told
  {
    states, steps, q := [s], [], s;
    FinishBegins(s, p, x, run, now);
    hide Enabled, From, Moves, To;
    if A.Wins(p, run) {
      q := FinishLeaves(s, p, run, status, error, now);
      hide Holds, A.FinishPipe, A.Wins, Finished, A.Watching;
      if RowOr(s).queued {
        steps := [BeginFinish(x, run, now), CheckFinish(x), LockFinish(x), CommitFinish(x)];
        states := FinishQueued(s, x, run, now, q);
      } else {
        steps := [BeginFinish(x, run, now), CheckFinish(x), CommitFinish(x)];
        states := FinishPlain(s, x, run, now, q);
      }
    }
  }

  lemma FinishQueued(s: Pg, x: nat, run: string, now: Instant, q: Pg) returns (states: seq<Pg>)
    requires s.txns == map[] && RowOr(s).queued && Moves(s, BeginFinish(x, run, now), To(s, x, FinishUpdated(run, now)))
    requires q == s.(active := s.active - {run}, row := if A.Watching(s.cfg) then Some(Finished(RowOr(s), s.cfg.trigger.value, now)) else s.row)
    ensures From(s, states, [BeginFinish(x, run, now), CheckFinish(x), LockFinish(x), CommitFinish(x)], q)
  {
    hide From, Moves, To, Finished;
    var locked := if A.Watching(s.cfg) then FinishHeld(run, now, s.cfg.trigger.value, RowOr(s)) else FinishDone(run, true);
    var a, b, c := To(s, x, FinishUpdated(run, now)), To(s, x, FinishWait(run, now)), To(s, x, locked);
    FinishChecks(s, x, run, now, FinishWait(run, now));
    FinishLocks(s, x, run, now, locked);
    FinishCommits(s, x, locked, q.row);
    states := [s, a, b, c, q];
    Four(s, a, b, c, q, BeginFinish(x, run, now), CheckFinish(x), LockFinish(x), CommitFinish(x));
  }

  lemma FinishPlain(s: Pg, x: nat, run: string, now: Instant, q: Pg) returns (states: seq<Pg>)
    requires s.txns == map[] && !RowOr(s).queued && Moves(s, BeginFinish(x, run, now), To(s, x, FinishUpdated(run, now)))
    requires q == s.(active := s.active - {run})
    ensures From(s, states, [BeginFinish(x, run, now), CheckFinish(x), CommitFinish(x)], q)
  {
    hide From, Moves, To;
    var a, b := To(s, x, FinishUpdated(run, now)), To(s, x, FinishDone(run, false));
    FinishChecks(s, x, run, now, FinishDone(run, false));
    FinishCommits(s, x, FinishDone(run, false), s.row);
    states := [s, a, b, q];
    Three(s, a, b, q, BeginFinish(x, run, now), CheckFinish(x), CommitFinish(x));
  }

  lemma FinishLeaves(s: Pg, p: A.Pipe, run: string, status: A.RunStatus, error: Option<string>, now: Instant) returns (q: Pg)
    requires Holds(s, p) && !A.IsActive(status) && A.Wins(p, run)
    ensures s.txns == map[] && Holds(q, A.FinishPipe(p, run, status, error, now))
    ensures q == s.(active := s.active - {run},
                    row := if RowOr(s).queued && A.Watching(s.cfg) then Some(Finished(RowOr(s), s.cfg.trigger.value, now)) else s.row)
  {
    assert s.row.Some? && !s.row.value.queued && A.Watching(s.cfg) ==> Finished(s.row.value, s.cfg.trigger.value, now) == s.row.value;
    hide Finished;
    q := s.(active := s.active - {run},
            row := if RowOr(s).queued && A.Watching(s.cfg) then Some(Finished(RowOr(s), s.cfg.trigger.value, now)) else s.row);
  }

  // ---- a creation ----

  lemma CreateBegins(s: Pg, x: nat, exclusive: bool)
    requires s.txns == map[]
    ensures Moves(s, BeginCreate(x, exclusive), To(s, x, if exclusive then CreateHeld else CreateReady(false)).(shared := s.shared || !exclusive))
  {
  }

  lemma CreateCounts(s: Pg, x: nat)
    requires s.txns == map[]
    ensures Moves(To(s, x, CreateHeld), CountCreate(x), if s.active != {} then s else To(s, x, CreateReady(true)))
  {
    ByItself(s, x, CreateHeld, CreateReady(true));
    hide RowFree;
  }

  lemma CreateCommits(s: Pg, x: nat, id: string, flight: Option<nat>, exclusive: bool, q: Pg)
    requires s.txns == map[] && id !in s.used && (flight.Some? ==> flight.value < |s.flights|) && q == AfterCreate(s, id, flight)
    ensures Moves(To(s, x, CreateReady(exclusive)), CommitCreate(x, id, flight), q)
  {
    ByItself(s, x, CreateReady(exclusive), CreateReady(exclusive));
    hide RowFree, Remove;
  }

  function AfterCreate(s: Pg, id: string, flight: Option<nat>): Pg
    requires flight.Some? ==> flight.value < |s.flights|
  {
    s.(active := s.active + {id}, used := s.used + {id},
       told := if flight.Some? then s.told[id := s.flights[flight.value]] else s.told,
       flights := if flight.Some? then Remove(s.flights, flight.value) else s.flights)
  }

  // A creation is refused exactly when it is exclusive and a run is active; else the run is there, and was told its fire.
  lemma CreateIsAtomic(s: Pg, p: A.Pipe, x: nat, id: string, run: A.Run, flight: Option<nat>, exclusive: bool)
    returns (states: seq<Pg>, steps: seq<Step>, q: Pg)
    requires Holds(s, p) && id !in s.used && A.IsActive(run.status) && (flight.Some? ==> flight.value < |s.flights|)
    ensures steps == [BeginCreate(x, exclusive)] + (if exclusive then [CountCreate(x)] else []) +
                     (if A.CanCreate(p, exclusive) then [CommitCreate(x, id, flight)] else [])
    ensures From(s, states, steps, q)
    ensures !A.CanCreate(p, exclusive) ==> q == s
    ensures A.CanCreate(p, exclusive) ==>
              && Holds(q, p.(runs := p.runs[id := run]))
              && q.flights == (if flight.Some? then Remove(s.flights, flight.value) else s.flights)
              && q.told == (if flight.Some? then s.told[id := s.flights[flight.value]] else s.told)
  {
    ActiveIs(s, p);
    hide From, A.Active, A.IsActive, Remove, AfterCreate;
    if exclusive && s.active != {} {
      q, steps := s, [BeginCreate(x, exclusive), CountCreate(x)];
      states := CreateRefused(s, x);
    } else {
      q := AfterCreate(s.(shared := s.shared || !exclusive), id, flight);
      CreateLeaves(s, p, id, run, flight, !exclusive);
      hide Holds;
      steps := [BeginCreate(x, exclusive)] + (if exclusive then [CountCreate(x)] else []) + [CommitCreate(x, id, flight)];
      if exclusive {
        assert steps == [BeginCreate(x, true), CountCreate(x), CommitCreate(x, id, flight)] && s.(shared := s.shared || !exclusive) == s;
        states := CreateCounted(s, x, id, flight, q);
      } else {
        assert steps == [BeginCreate(x, false), CommitCreate(x, id, flight)];
        states := CreateAtOnce(s, x, id, flight, q);
      }
    }
  }

  lemma CreateLeaves(s: Pg, p: A.Pipe, id: string, run: A.Run, flight: Option<nat>, shared: bool)
    requires Holds(s, p) && id !in s.used && A.IsActive(run.status) && (flight.Some? ==> flight.value < |s.flights|)
    ensures var q := AfterCreate(s.(shared := s.shared || shared), id, flight);
            && Holds(q, p.(runs := p.runs[id := run]))
            && q.flights == (if flight.Some? then Remove(s.flights, flight.value) else s.flights)
            && q.told == (if flight.Some? then s.told[id := s.flights[flight.value]] else s.told)
  {
    hide Remove;
  }

  lemma CreateRefused(s: Pg, x: nat) returns (states: seq<Pg>)
    requires s.txns == map[] && s.active != {}
    ensures From(s, states, [BeginCreate(x, true), CountCreate(x)], s)
  {
    CreateBegins(s, x, true);
    CreateCounts(s, x);
    assert s.(shared := s.shared || false) == s && To(s, x, CreateHeld).(shared := s.shared || false) == To(s, x, CreateHeld);
    hide From, Moves, To;
    states := [s, To(s, x, CreateHeld), s];
    Two(s, To(s, x, CreateHeld), s, BeginCreate(x, true), CountCreate(x));
  }

  lemma CreateCounted(s: Pg, x: nat, id: string, flight: Option<nat>, q: Pg) returns (states: seq<Pg>)
    requires s.txns == map[] && s.active == {} && id !in s.used && (flight.Some? ==> flight.value < |s.flights|) && q == AfterCreate(s, id, flight)
    ensures From(s, states, [BeginCreate(x, true), CountCreate(x), CommitCreate(x, id, flight)], q)
  {
    CreateBegins(s, x, true);
    CreateCounts(s, x);
    CreateCommits(s, x, id, flight, true, q);
    assert To(s, x, CreateHeld).(shared := s.shared || false) == To(s, x, CreateHeld);
    hide From, Moves, To;
    var a, b := To(s, x, CreateHeld), To(s, x, CreateReady(true));
    states := [s, a, b, q];
    Three(s, a, b, q, BeginCreate(x, true), CountCreate(x), CommitCreate(x, id, flight));
  }

  lemma CreateAtOnce(s: Pg, x: nat, id: string, flight: Option<nat>, q: Pg) returns (states: seq<Pg>)
    requires s.txns == map[] && id !in s.used && (flight.Some? ==> flight.value < |s.flights|)
    requires q == AfterCreate(s.(shared := true), id, flight)
    ensures From(s, states, [BeginCreate(x, false), CommitCreate(x, id, flight)], q)
  {
    var shared := s.(shared := true);
    CreateBegins(s, x, false);
    CreateCommits(shared, x, id, flight, false, q);
    assert To(s, x, CreateReady(false)).(shared := true) == To(shared, x, CreateReady(false));
    hide From, Moves, To;
    states := [s, To(shared, x, CreateReady(false)), q];
    Two(s, To(shared, x, CreateReady(false)), q, BeginCreate(x, false), CommitCreate(x, id, flight));
  }

  // ---- new settings ----

  lemma ConfigBegins(s: Pg, x: nat, cfg: A.Config)
    requires s.txns == map[]
    ensures Moves(s, BeginConfig(x, cfg), To(s, x, ConfigHeld(cfg)))
  {
  }

  lemma ConfigLocks(s: Pg, x: nat, cfg: A.Config, locked: Txn)
    requires s.txns == map[] && !A.Watching(cfg) && locked == if s.row.Some? then ConfigReset(cfg, s.row.value) else ConfigMissed(cfg)
    ensures Moves(To(s, x, ConfigHeld(cfg)), LockConfig(x), To(s, x, locked))
  {
    ByItself(s, x, ConfigHeld(cfg), locked);
    hide RowFree;
  }

  lemma ConfigCommits(s: Pg, x: nat, txn: Txn, row: Option<State>)
    requires s.txns == map[] && (txn.ConfigReset? || txn.ConfigMissed? || (txn.ConfigHeld? && A.Watching(txn.cfg)))
    requires row == if txn.ConfigReset? then Some(Reset(txn.st)) else s.row
    ensures Moves(To(s, x, txn), CommitConfig(x), s.(cfg := txn.cfg, row := row))
  {
    ByItself(s, x, txn, txn);
    hide RowFree, Reset;
  }

  lemma ConfigureIsAtomic(s: Pg, p: A.Pipe, x: nat, cfg: A.Config) returns (states: seq<Pg>, steps: seq<Step>, q: Pg)
    requires Holds(s, p)
    ensures steps == [BeginConfig(x, cfg)] + (if A.Watching(cfg) then [] else [LockConfig(x)]) + [CommitConfig(x)]
    ensures From(s, states, steps, q) && Holds(q, A.ConfigurePipe(p, cfg)) && q.flights == s.flights && q.told == s.told
  {
    ConfigBegins(s, x, cfg);
    hide From, Moves, To, Reset;
    var row := A.ConfigurePipe(p, cfg).st;
    q := s.(cfg := cfg, row := row);
    if A.Watching(cfg) {
      ConfigCommits(s, x, ConfigHeld(cfg), row);
      Two(s, To(s, x, ConfigHeld(cfg)), q, BeginConfig(x, cfg), CommitConfig(x));
      states, steps := [s, To(s, x, ConfigHeld(cfg)), q], [BeginConfig(x, cfg), CommitConfig(x)];
    } else {
      var locked := if s.row.Some? then ConfigReset(cfg, s.row.value) else ConfigMissed(cfg);
      ConfigLocks(s, x, cfg, locked);
      ConfigCommits(s, x, locked, row);
      Three(s, To(s, x, ConfigHeld(cfg)), To(s, x, locked), q, BeginConfig(x, cfg), LockConfig(x), CommitConfig(x));
      states, steps := [s, To(s, x, ConfigHeld(cfg)), To(s, x, locked), q], [BeginConfig(x, cfg), LockConfig(x), CommitConfig(x)];
    }
  }
}
