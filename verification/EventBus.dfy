// The event bus consumer (src/booth_pipeline/event_bus.py): messages are delivered at least once, by any replica,
// and each is recorded in the store with its stream sequence number in the same transaction as its effect.
module EventBus {
  import opened Basics
  import opened Triggers
  import opened AtomicStore
  import opened MemoryStore

  // What parse_event makes of a message body.
  datatype Message = Malformed | Event(ev: TriggerEvent)

  predicate Wakes(out: Option<map<string, Outcome>>) {
    out.Some? && exists pid :: pid in out.value && out.value[pid] == Pending
  }

  class TriggerIngest {
    var bad: nat
    const store: MemoryStore

    constructor (store: MemoryStore)
      ensures this.store == store && bad == 0
    {
      this.store, bad := store, 0;
    }

    // `storeUp` is false when the store fails before the commit: the call raises and nothing is recorded.
    method Handle(msg: Message, sequence: int, now: Instant, storeUp: bool)
      returns (r: Result<Option<map<string, Outcome>>, string>, woke: bool)
      requires Valid(store.Contents())
      modifies this`bad, store`states, store`seen
      ensures store.Contents() == Delivered(old(store.Contents()), sequence, msg, now, storeUp) && Valid(store.Contents())
      ensures bad == old(bad) + (if msg.Malformed? then 1 else 0)
      ensures r.Err? <==> msg.Event? && !storeUp
      ensures msg.Malformed? ==> r == Ok(Some(map[]))
      ensures r.Ok? && msg.Event? ==> (r.value.None? <==> sequence in old(store.seen)) && sequence in store.seen
      ensures woke <==> r.Ok? && Wakes(r.value)
    {
      woke := false;
      match msg
      case Malformed =>
        bad := bad + 1;
        r := Ok(Some(map[]));
      case Event(ev) =>
        if !storeUp {
          return Err("the database is away"), false;
        }
        var out := store.IngestTriggerEvent(ev, Some(sequence), now);
        woke := Wakes(out);
        r := Ok(out);
    }
  }

  datatype Delivery = Delivery(sequence: int, msg: Message, now: Instant, storeUp: bool)

  function DeliveredAll(db: Db, batch: seq<Delivery>): Db {
    if batch == [] then db
    else
      var n := |batch| - 1;
      Delivered(DeliveredAll(db, batch[..n]), batch[n].sequence, batch[n].msg, batch[n].now, batch[n].storeUp)
  }

  // The loop over one fetched batch: acked[i] says whether message i was acknowledged or sent back. A message is
  // acknowledged only when it is malformed or its sequence number is recorded.
  method Consume(ingest: TriggerIngest, batch: seq<Delivery>) returns (acked: seq<bool>)
    requires Valid(ingest.store.Contents())
    modifies ingest`bad, ingest.store`states, ingest.store`seen
    ensures ingest.store.Contents() == DeliveredAll(old(ingest.store.Contents()), batch) && Valid(ingest.store.Contents())
    ensures |acked| == |batch|
    ensures forall i :: 0 <= i < |batch| ==> (acked[i] <==> batch[i].msg.Malformed? || batch[i].storeUp)
    ensures forall i :: 0 <= i < |batch| && acked[i] && batch[i].msg.Event? ==> batch[i].sequence in ingest.store.seen
    ensures forall s :: s in old(ingest.store.seen) ==> s in ingest.store.seen
  {
    acked := [];
    for i := 0 to |batch|
      invariant |acked| == i && Valid(ingest.store.Contents())
      invariant ingest.store.Contents() == DeliveredAll(old(ingest.store.Contents()), batch[..i])
      invariant forall k :: 0 <= k < i ==> (acked[k] <==> batch[k].msg.Malformed? || batch[k].storeUp)
      invariant forall k :: 0 <= k < i && acked[k] && batch[k].msg.Event? ==> batch[k].sequence in ingest.store.seen
      invariant forall s :: s in old(ingest.store.seen) ==> s in ingest.store.seen
    {
      var d := batch[i];
      var r, woke := ingest.Handle(d.msg, d.sequence, d.now, d.storeUp);
      acked := acked + [r.Ok?];
      assert batch[..i + 1][..i] == batch[..i];
    }
    assert batch[..|batch|] == batch;
  }

  // ---- any schedule of deliveries ----

  function Delivered(db: Db, sequence: int, msg: Message, now: Instant, commits: bool): Db {
    if commits && msg.Event? then IngestDb(db, msg.ev, Some(sequence), now) else db
  }

  // One thing that happens to the store: a delivery, which commits or rolls back, whatever becomes of its
  // acknowledgement; a pruning of the record; or any other operation.
  datatype Step =
    | Deliver(sequence: int, msg: Message, now: Instant, commits: bool)
    | Prune(before: Instant)
    | Other(op: Op)

  function Apply(db: Db, step: Step): Db {
    match step
    case Deliver(sequence, msg, now, commits) => Delivered(db, sequence, msg, now, commits)
    case Prune(before) => db.(seen := Pruned(db.seen, before))
    case Other(op) => Do(db, op)
  }

  function After(db: Db, steps: seq<Step>, k: nat): Db
    requires k <= |steps|
  {
    if k == 0 then db else Apply(After(db, steps, k - 1), steps[k - 1])
  }

  predicate Commits(step: Step, s: int) { step.Deliver? && step.commits && step.msg.Event? && step.sequence == s }

  // A sequence number's first committed delivery.
  predicate IsFirst(steps: seq<Step>, j: nat, s: int) {
    j < |steps| && Commits(steps[j], s) && forall i :: 0 <= i < j ==> !Commits(steps[i], s)
  }

  // The reference: only the first committed delivery of each number counts, and nothing is remembered.
  function Replayed(db: Db, steps: seq<Step>, k: nat): Db
    requires k <= |steps|
  {
    if k == 0 then db
    else
      var before, step := Replayed(db, steps, k - 1), steps[k - 1];
      match step
      case Deliver(s, msg, now, _) => if IsFirst(steps, k - 1, s) then IngestDb(before, msg.ev, None, now) else before
      case Prune(_) => before
      case Other(op) => Do(before, op)
  }

  ghost predicate IsHistory(db: Db, steps: seq<Step>) {
    db.seen == map[] && forall i :: 0 <= i < |steps| && steps[i].Other? ==> !steps[i].op.Ingest? && !steps[i].op.PruneSeen?
  }

  predicate Forgets(step: Step, at: Instant) { step.Prune? && at < step.before }

  // Some delivery of s commits after the record of its first one was pruned.
  ghost predicate RedeliveredLate(steps: seq<Step>, n: nat, s: int)
    requires n <= |steps|
  {
    exists j, k, i :: 0 <= j < k < i < n && IsFirst(steps, j, s) && Forgets(steps[k], steps[j].now) && Commits(steps[i], s)
  }

  // How often an event took effect.
  function Effects(db: Db, steps: seq<Step>, k: nat, s: int): nat
    requires k <= |steps|
  {
    if k == 0 then 0
    else Effects(db, steps, k - 1, s) + if Commits(steps[k - 1], s) && s !in After(db, steps, k - 1).seen then 1 else 0
  }

  function Core(db: Db): Db { db.(seen := map[]) }

  lemma IngestIgnoresRecord(db: Db, ev: TriggerEvent, s: int, now: Instant)
    requires s !in db.seen
    ensures Core(IngestDb(db, ev, Some(s), now)) == IngestDb(Core(db), ev, None, now)
    ensures IngestDb(db, ev, Some(s), now).seen == db.seen[s := now]
  {
    assert Hits(db, ev) == Hits(Core(db), ev);
    forall pid | pid in Hits(db, ev) ensures IngestResult(db, ev, now, pid) == IngestResult(Core(db), ev, now, pid) {
      assert PipeOf(db, pid) == PipeOf(Core(db), pid);
    }
    assert IngestResults(db, ev, now) == IngestResults(Core(db), ev, now);
  }

  lemma OtherIgnoresRecord(db: Db, op: Op)
    requires !op.Ingest? && !op.PruneSeen?
    ensures Do(db, op).seen == db.seen && Core(Do(db, op)) == Do(Core(db), op)
  {
    OpIgnoresSeen(db, db.seen, op);
    OpIgnoresSeen(db, map[], op);
    hide Do;
    assert db.(seen := db.seen) == db;
  }

  // What one step does to the record of s.
  lemma RecordNext(db: Db, step: Step, s: int)
    requires step.Other? ==> !step.op.Ingest? && !step.op.PruneSeen?
    ensures var was, now := db.seen, Apply(db, step).seen;
            if Commits(step, s) && s !in was then s in now && now[s] == step.now
            else if s in was && Forgets(step, was[s]) then s !in now
            else s in now <==> s in was
    ensures s in db.seen && s in Apply(db, step).seen ==> Apply(db, step).seen[s] == db.seen[s]
  {
    match step
    case Deliver(t, msg, now, commits) =>
      if commits && msg.Event? && t !in db.seen { IngestIgnoresRecord(db, msg.ev, t, now); }
    case Prune(_) =>
    case Other(op) => OtherIgnoresRecord(db, op);
  }

  // A number is recorded only once delivered; and from its first commit on it stays recorded, with that commit's
  // time, until a prune forgets it.
  lemma {:induction false} RecordKept(db: Db, steps: seq<Step>, k: nat, s: int)
    requires IsHistory(db, steps) && k <= |steps|
    ensures s in After(db, steps, k).seen ==> exists j :: 0 <= j < k && IsFirst(steps, j, s)
    ensures forall j :: 0 <= j < k && IsFirst(steps, j, s) && (forall i :: j < i < k ==> !Forgets(steps[i], steps[j].now)) ==>
              s in After(db, steps, k).seen && After(db, steps, k).seen[s] == steps[j].now
  {
    hide After, Apply, Replayed, Effects;
    if k == 0 {
      NothingRecorded(db, steps, s);
    } else {
      RecordKept(db, steps, k - 1, s);
      StepOnce(db, steps, k, s);
      RecordNext(After(db, steps, k - 1), steps[k - 1], s);
      if Commits(steps[k - 1], s) { FirstExists(steps, k - 1, s); }
      hide IsHistory;
    }
  }

  lemma NothingRecorded(db: Db, steps: seq<Step>, s: int)
    requires IsHistory(db, steps)
    ensures s !in After(db, steps, 0).seen
  {
  }

  lemma {:induction false} FirstExists(steps: seq<Step>, i: nat, s: int)
    requires i < |steps| && Commits(steps[i], s)
    ensures exists j :: 0 <= j <= i && IsFirst(steps, j, s)
  {
    if !IsFirst(steps, i, s) {
      var k :| 0 <= k < i && Commits(steps[k], s);
      FirstExists(steps, k, s);
    }
  }

  // A committed delivery finds its number recorded exactly when it is not the first, as long as the record is
  // kept until the last redelivery.
  lemma FirstFindsNoRecord(db: Db, steps: seq<Step>, i: nat, s: int)
    requires IsHistory(db, steps) && i < |steps| && Commits(steps[i], s)
    requires !RedeliveredLate(steps, |steps|, s)
    ensures IsFirst(steps, i, s) <==> s !in After(db, steps, i).seen
  {
    RecordKept(db, steps, i, s);
    if !IsFirst(steps, i, s) {
      FirstExists(steps, i, s);
      var j :| 0 <= j <= i && IsFirst(steps, j, s);
      assert forall k :: j < k < i ==> !Forgets(steps[k], steps[j].now);
    }
  }

  // At-least-once delivery, at-most-once effect: however deliveries fail, repeat and interleave with the other
  // operations, the store ends as if each number had been delivered once, at its first commit.
  lemma {:induction false} DeliveriesReplayOnce(db: Db, steps: seq<Step>, k: nat)
    requires IsHistory(db, steps) && k <= |steps|
    requires forall s :: !RedeliveredLate(steps, |steps|, s)
    ensures Core(After(db, steps, k)) == Replayed(db, steps, k)
  {
    hide IsHistory, RedeliveredLate, Core, After, Replayed;
    if k == 0 {
      NothingReplayed(db, steps);
    } else {
      DeliveriesReplayOnce(db, steps, k - 1);
      if steps[k - 1].Deliver? { DeliveryReplays(db, steps, k); } else { OtherReplays(db, steps, k); }
    }
  }

  lemma NothingReplayed(db: Db, steps: seq<Step>)
    requires IsHistory(db, steps)
    ensures Core(After(db, steps, 0)) == Replayed(db, steps, 0)
  {
  }

  lemma FirstReplays(db: Db, steps: seq<Step>, k: nat)
    requires 0 < k <= |steps| && steps[k - 1].Deliver? && IsFirst(steps, k - 1, steps[k - 1].sequence)
    requires steps[k - 1].sequence !in After(db, steps, k - 1).seen && Core(After(db, steps, k - 1)) == Replayed(db, steps, k - 1)
    ensures Core(After(db, steps, k)) == Replayed(db, steps, k)
  {
    var before, step := After(db, steps, k - 1), steps[k - 1];
    assert Commits(step, step.sequence);
    hide After, Replayed, Effects, IngestDb, IsFirst, Apply, Core;
    StepOnce(db, steps, k, step.sequence);
    SeenIngestsNothing(before, step);
    IngestIgnoresRecord(before, step.msg.ev, step.sequence, step.now);
  }

  lemma SeenReplays(db: Db, steps: seq<Step>, k: nat)
    requires 0 < k <= |steps| && steps[k - 1].Deliver? && steps[k - 1].msg.Event? && !IsFirst(steps, k - 1, steps[k - 1].sequence)
    requires steps[k - 1].sequence in After(db, steps, k - 1).seen && Core(After(db, steps, k - 1)) == Replayed(db, steps, k - 1)
    ensures Core(After(db, steps, k)) == Replayed(db, steps, k)
  {
    hide After, Replayed, Effects, IngestDb, IsFirst, Apply, Core;
    StepOnce(db, steps, k, steps[k - 1].sequence);
    SeenIngestsNothing(After(db, steps, k - 1), steps[k - 1]);
  }

  lemma CommittedReplays(db: Db, steps: seq<Step>, k: nat)
    requires IsHistory(db, steps) && 0 < k <= |steps| && steps[k - 1].Deliver? && Commits(steps[k - 1], steps[k - 1].sequence)
    requires !RedeliveredLate(steps, |steps|, steps[k - 1].sequence)
    requires Core(After(db, steps, k - 1)) == Replayed(db, steps, k - 1)
    ensures Core(After(db, steps, k)) == Replayed(db, steps, k)
  {
    hide After, Replayed, RedeliveredLate, IsHistory, IsFirst, Core;
    FirstFindsNoRecord(db, steps, k - 1, steps[k - 1].sequence);
    if IsFirst(steps, k - 1, steps[k - 1].sequence) { FirstReplays(db, steps, k); } else { SeenReplays(db, steps, k); }
  }

  lemma DeliveryReplays(db: Db, steps: seq<Step>, k: nat)
    requires IsHistory(db, steps) && 0 < k <= |steps| && steps[k - 1].Deliver? && !RedeliveredLate(steps, |steps|, steps[k - 1].sequence)
    requires Core(After(db, steps, k - 1)) == Replayed(db, steps, k - 1)
    ensures Core(After(db, steps, k)) == Replayed(db, steps, k)
  {
    var step := steps[k - 1];
    if Commits(step, step.sequence) {
      CommittedReplays(db, steps, k);
    } else {
      hide After, Replayed, Effects, RedeliveredLate, IsHistory, IngestDb, IsFirst, Core;
      StepOnce(db, steps, k, step.sequence);
      UncommittedIsNotFirst(steps, k - 1, step.sequence);
    }
  }

  lemma SeenIngestsNothing(db: Db, step: Step)
    requires step.Deliver? && step.msg.Event?
    ensures step.sequence in db.seen ==> Apply(db, step) == db
    ensures step.commits ==> Apply(db, step) == IngestDb(db, step.msg.ev, Some(step.sequence), step.now)
  {
    hide IngestResults;
  }

  lemma UncommittedIsNotFirst(steps: seq<Step>, j: nat, s: int)
    requires j < |steps| && !Commits(steps[j], s)
    ensures !IsFirst(steps, j, s)
  {
  }

  lemma OtherReplays(db: Db, steps: seq<Step>, k: nat)
    requires IsHistory(db, steps) && 0 < k <= |steps| && !steps[k - 1].Deliver?
    requires Core(After(db, steps, k - 1)) == Replayed(db, steps, k - 1)
    ensures Core(After(db, steps, k)) == Replayed(db, steps, k)
  {
    if steps[k - 1].Other? { OtherIgnoresRecord(After(db, steps, k - 1), steps[k - 1].op); }
    hide IsHistory, Do;
  }

  // The record of s was pruned after its first commit.
  ghost predicate Forgotten(steps: seq<Step>, n: nat, s: int)
    requires n <= |steps|
  {
    exists j, k :: 0 <= j < k < n && IsFirst(steps, j, s) && Forgets(steps[k], steps[j].now)
  }

  predicate Delivers(steps: seq<Step>, n: nat, s: int)
    requires n <= |steps|
  {
    exists i :: 0 <= i < n && Commits(steps[i], s)
  }

  lemma LateNext(steps: seq<Step>, n: nat, s: int)
    requires 0 < n <= |steps|
    ensures RedeliveredLate(steps, n, s) <==> RedeliveredLate(steps, n - 1, s) || (Commits(steps[n - 1], s) && Forgotten(steps, n - 1, s))
    ensures Forgotten(steps, n - 1, s) ==> Forgotten(steps, n, s) && Delivers(steps, n - 1, s)
    ensures Forgotten(steps, n, s) ==> Delivers(steps, n - 1, s)
  {
    if RedeliveredLate(steps, n, s) {
      var j, k, i :| 0 <= j < k < i < n && IsFirst(steps, j, s) && Forgets(steps[k], steps[j].now) && Commits(steps[i], s);
      assert i < n - 1 ==> RedeliveredLate(steps, n - 1, s);
    }
  }

  lemma RecordedUnlessForgotten(db: Db, steps: seq<Step>, n: nat, s: int)
    requires IsHistory(db, steps) && n < |steps|
    ensures s in After(db, steps, n).seen ==> Delivers(steps, n, s)
    ensures Delivers(steps, n, s) && !Forgotten(steps, n, s) ==> s in After(db, steps, n).seen
    ensures Delivers(steps, n, s) && !Forgotten(steps, n, s) && Forgotten(steps, n + 1, s) ==>
              Forgets(steps[n], After(db, steps, n).seen[s])
  {
    RecordKept(db, steps, n, s);
    hide After;
    if Delivers(steps, n, s) {
      var i :| 0 <= i < n && Commits(steps[i], s);
      FirstExists(steps, i, s);
      var j :| 0 <= j <= i && IsFirst(steps, j, s);
      if !Forgotten(steps, n, s) {
        assert forall k :: j < k < n ==> !Forgets(steps[k], steps[j].now);
        if Forgotten(steps, n + 1, s) {
          var j2, k :| 0 <= j2 < k < n + 1 && IsFirst(steps, j2, s) && Forgets(steps[k], steps[j2].now);
          assert j2 == j && k == n;
        }
      }
    }
  }

  lemma DeliversNext(steps: seq<Step>, n: nat, s: int)
    requires 0 < n <= |steps|
    ensures Delivers(steps, n, s) <==> Delivers(steps, n - 1, s) || Commits(steps[n - 1], s)
  {
  }

  lemma EffectsNext(db: Db, steps: seq<Step>, n: nat, s: int)
    requires IsHistory(db, steps) && 0 < n <= |steps|
    ensures var was, now, step := After(db, steps, n - 1).seen, After(db, steps, n).seen, steps[n - 1];
            && Effects(db, steps, n, s) == Effects(db, steps, n - 1, s) + (if Commits(step, s) && s !in was then 1 else 0)
            && (!Commits(step, s) && s !in was ==> s !in now)
            && (s in was && Forgets(step, was[s]) ==> s !in now && !Commits(step, s))
  {
    RecordNext(After(db, steps, n - 1), steps[n - 1], s);
    hide IngestDb;
  }

  ghost predicate Counted(db: Db, steps: seq<Step>, n: nat, s: int)
    requires n <= |steps|
  {
    && (Effects(db, steps, n, s) == 0 <==> !Delivers(steps, n, s))
    && (Effects(db, steps, n, s) >= 2 <==> RedeliveredLate(steps, n, s))
    && (Effects(db, steps, n, s) == 1 && Forgotten(steps, n, s) ==> s !in After(db, steps, n).seen)
  }

  lemma CountsNone(db: Db, steps: seq<Step>, s: int)
    ensures Counted(db, steps, 0, s)
  {
  }

  lemma CountsNext(db: Db, steps: seq<Step>, n: nat, s: int)
    requires IsHistory(db, steps) && 0 < n <= |steps| && Counted(db, steps, n - 1, s)
    ensures Counted(db, steps, n, s)
  {
    hide IsHistory, Effects, Delivers, RedeliveredLate, Forgotten, After, Commits, Forgets;
    LateNext(steps, n, s);
    DeliversNext(steps, n, s);
    RecordedUnlessForgotten(db, steps, n - 1, s);
    EffectsNext(db, steps, n, s);
  }

  lemma {:induction false} CountsEffects(db: Db, steps: seq<Step>, n: nat, s: int)
    requires IsHistory(db, steps) && n <= |steps|
    ensures Counted(db, steps, n, s)
  {
    hide *;
    if n == 0 {
      CountsNone(db, steps, s);
    } else {
      CountsEffects(db, steps, n - 1, s);
      CountsNext(db, steps, n, s);
    }
  }

  // Exactly when: an event takes effect twice if and only if it is redelivered after its record was pruned.
  lemma EffectsAreOnceUnlessLate(db: Db, steps: seq<Step>, n: nat, s: int)
    requires IsHistory(db, steps) && n <= |steps|
    ensures Effects(db, steps, n, s) == 0 <==> forall i :: 0 <= i < n ==> !Commits(steps[i], s)
    ensures Effects(db, steps, n, s) >= 2 <==> RedeliveredLate(steps, n, s)
  {
    CountsEffects(db, steps, n, s);
  }

  // ---- a late redelivery ----

  function OneTrigger(ev: TriggerEvent): Db {
    Db(map["p" := Pipeline(ev.workspace, "p", StorageTrigger(ev.backendId, true))], map[], map[], map[])
  }

  lemma CountedOnce(db: Db, ev: TriggerEvent, s: int, now: Instant)
    requires ev.etype == StorageCreated && ev.publishedAt == Absent
    requires db.pipelines == OneTrigger(ev).pipelines && db.runs == map[] && s !in db.seen
    ensures var after := IngestDb(db, ev, Some(s), now);
            && after.pipelines == db.pipelines && after.runs == map[] && after.seen == db.seen[s := now] && "p" in after.states
            && after.states["p"].eventCount == Row(PipeOf(db, "p")).eventCount + 1
  {
    var p := PipeOf(db, "p");
    assert MatchesOne(p.cfg.trigger.value.matches[0], ev);
    assert Concerned(db, "p", ev) && "p" in Hits(db, ev);
    assert p.runs == map[] && !Active(p.runs);
    assert OutcomeAt(p, false) == Pending;
    hide Hits, Active, Concerns;
  }

  // One event, delivered, forgotten by a prune, and delivered again: it is counted twice, where the reference
  // counts it once.
  lemma LateRedeliveryCountsTwice(ev: TriggerEvent, s: int) returns (steps: seq<Step>)
    requires ev.etype == StorageCreated && ev.publishedAt == Absent
    ensures IsHistory(OneTrigger(ev), steps) && |steps| == 3 && RedeliveredLate(steps, 3, s) && Effects(OneTrigger(ev), steps, 3, s) == 2
    ensures var after := After(OneTrigger(ev), steps, 3); "p" in after.states && after.states["p"].eventCount == 2
    ensures var once := Replayed(OneTrigger(ev), steps, 3); "p" in once.states && once.states["p"].eventCount == 1
  {
    var db, first, prune, again := OneTrigger(ev), Deliver(s, Event(ev), 0, true), Step.Prune(1), Deliver(s, Event(ev), 1, true);
    steps := [first, prune, again];
    hide IngestDb;
    var db1 := IngestDb(db, ev, Some(s), 0);
    var db2 := db1.(seen := Pruned(db1.seen, 1));
    CountedOnce(db, ev, s, 0);
    assert db2.seen == map[];
    CountedOnce(db2, ev, s, 1);
    assert PipeOf(db2, "p") == PipeOf(db1, "p");
    ThreeSteps(db, steps, ev, s);
    IngestIgnoresRecord(db, ev, s, 0);
    assert Core(db) == db;
  }

  // What becomes of the store and of the reference over these three steps, and how often the event takes effect.
  lemma ThreeSteps(db: Db, steps: seq<Step>, ev: TriggerEvent, s: int)
    requires steps == [Deliver(s, Event(ev), 0, true), Step.Prune(1), Deliver(s, Event(ev), 1, true)] && s !in db.seen
    requires s !in Pruned(IngestDb(db, ev, Some(s), 0).seen, 1)
    ensures var db1 := IngestDb(db, ev, Some(s), 0); var db2 := db1.(seen := Pruned(db1.seen, 1));
            After(db, steps, 3) == IngestDb(db2, ev, Some(s), 1)
    ensures Replayed(db, steps, 3) == IngestDb(Replayed(db, steps, 0), ev, None, 0) && Effects(db, steps, 3, s) == 2
    ensures RedeliveredLate(steps, 3, s)
  {
    hide IngestDb, Pruned;
    assert IsFirst(steps, 0, s) && Forgets(steps[1], steps[0].now) && Commits(steps[2], s) && !IsFirst(steps, 2, s);
    StepOnce(db, steps, 1, s);
    StepOnce(db, steps, 2, s);
    StepOnce(db, steps, 3, s);
    hide After, Replayed, Effects;
  }

  lemma StepOnce(db: Db, steps: seq<Step>, k: nat, s: int)
    requires 0 < k <= |steps|
    ensures After(db, steps, 0) == Replayed(db, steps, 0) == db && Effects(db, steps, 0, s) == 0
    ensures After(db, steps, k) == Apply(After(db, steps, k - 1), steps[k - 1])
    ensures var before, step := Replayed(db, steps, k - 1), steps[k - 1];
            step.Deliver? ==>
              Replayed(db, steps, k) == if IsFirst(steps, k - 1, step.sequence) && step.msg.Event? then IngestDb(before, step.msg.ev, None, step.now) else before
    ensures steps[k - 1].Prune? ==> Replayed(db, steps, k) == Replayed(db, steps, k - 1)
    ensures Effects(db, steps, k, s) == Effects(db, steps, k - 1, s) +
                                        if Commits(steps[k - 1], s) && s !in After(db, steps, k - 1).seen then 1 else 0
  {
    hide IngestDb;
  }

  // ---- no other operation reads or writes the record of handled sequence numbers ----

  lemma PipesIgnoreSeen(db: Db, seen: map<int, Instant>, pid: string)
    requires pid in db.pipelines
    ensures PipeOf(db.(seen := seen), pid) == PipeOf(db, pid)
  {
  }

  lemma ClaimIgnoresSeen(db: Db, seen: map<int, Instant>, now: Instant, picked: seq<string>)
    requires forall p :: p in picked ==> p in db.pipelines
    ensures ClaimDb(db.(seen := seen), now, picked) == ClaimDb(db, now, picked).(seen := seen)
  {
    forall pid | pid in picked ensures ClaimRow(db.(seen := seen), now, pid) == ClaimRow(db, now, pid) {
      PipesIgnoreSeen(db, seen, pid);
    }
    hide ClaimRow;
  }

  lemma MissIgnoresSeen(db: Db, seen: map<int, Instant>, now: Instant)
    ensures MissDb(db.(seen := seen), now) == MissDb(db, now).(seen := seen)
  {
    forall pid | pid in Watchers(db) ensures MissRow(db.(seen := seen), now, pid) == MissRow(db, now, pid) {
      PipesIgnoreSeen(db, seen, pid);
    }
    assert Watchers(db.(seen := seen)) == Watchers(db);
    hide MissRow, Watchers;
  }

  lemma PipelineOpIgnoresSeen(db: Db, seen: map<int, Instant>, op: Op)
    requires op.Requeue? || op.Configure? || op.Add? || op.Delete?
    ensures Do(db.(seen := seen), op) == Do(db, op).(seen := seen)
  {
    if (op.Requeue? || op.Configure?) && op.pid in db.pipelines { PipesIgnoreSeen(db, seen, op.pid); }
    hide PipeOf, RequeuePipe, ConfigurePipe;
  }

  lemma RunOpIgnoresSeen(db: Db, seen: map<int, Instant>, op: Op)
    requires op.Create? || op.Mark? || op.Finish? || op.PruneRuns?
    ensures Do(db.(seen := seen), op) == Do(db, op).(seen := seen)
  {
    hide Active, RunsOf, Finished, Retained;
  }

  // Claims, requeues, outages, creations, starts, finishes, retention, new pipelines, schedule edits and deletions.
  lemma OpIgnoresSeen(db: Db, seen: map<int, Instant>, op: Op)
    requires !op.Ingest? && !op.PruneSeen?
    ensures Do(db.(seen := seen), op) == Do(db, op).(seen := seen)
  {
    match op
    case Claim(now, picked) =>
      if forall p :: p in picked ==> p in db.pipelines { ClaimIgnoresSeen(db, seen, now, picked); }
    case Miss(now) => MissIgnoresSeen(db, seen, now);
    case Requeue(_, _, _) => PipelineOpIgnoresSeen(db, seen, op);
    case Configure(_, _) => PipelineOpIgnoresSeen(db, seen, op);
    case Add(_, _, _) => PipelineOpIgnoresSeen(db, seen, op);
    case Delete(_) => PipelineOpIgnoresSeen(db, seen, op);
    case _ => RunOpIgnoresSeen(db, seen, op);
  }
}
