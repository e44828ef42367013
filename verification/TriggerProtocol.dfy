// One pipeline's event trigger over a whole run of the system, whatever the actors do and in whatever
// order: the bus consumer, every replica's scheduler, run completion, outage recovery, schedule edits.
// Each step carries the trigger settings, the clock reading and the answers to "is a run active" that
// the transaction used, and nothing is assumed about them: settings may change between steps, clocks may
// run backwards, and an activity answer may be stale. Both stores follow this protocol (AtomicStore,
// PostgresStore), so what holds here holds of both.
//
// Every matching event that is ingested gets a token, its position in `log`, and `heard` has the clock reading it was
// ingested at. The fields after `flights` are history: they say where each token went, and the program does not
// store them.
module TriggerProtocol {
  import opened Basics
  import opened Triggers

  type Token = int

  // A fire that was claimed and whose run is not created yet.
  datatype Flight = Flight(fired: Fired, burst: seq<Token>)

  // What a created run was told about its burst.
  datatype Carried = Carried(runId: string, fired: Fired, burst: seq<Token>)

  datatype Protocol = Protocol(
    st: State, flights: seq<Flight>,
    log: seq<TriggerEvent>, burst: seq<Token>, carried: seq<Carried>,
    ignored: multiset<Token>, skipped: multiset<Token>, discarded: multiset<Token>, lost: multiset<Token>,
    fires: seq<Instant>, heard: seq<Instant>, outages: nat)

  const INITIAL := Protocol(EMPTY, [], [], [], [], multiset{}, multiset{}, multiset{}, multiset{}, [], [], 0)

  datatype Step =
    | Ingest(t: EventTrigger, ev: TriggerEvent, now: Instant, ownRun: bool, runActive: bool, concurrent: bool)
    | Claim(t: EventTrigger, now: Instant, startsNow: bool)
    | Start(flight: nat, runId: string)                       // the claimed fire's run is created
    | Lose(flight: nat)                                       // it cannot start, or its worker died
    | Requeue(flight: nat, t: EventTrigger, now: Instant, idle: bool)
    | Release(t: EventTrigger, now: Instant)                  // a run ended
    | MissEvents(t: EventTrigger, now: Instant)
    | TurnOff                                                 // disabled, removed, or the pipeline deleted

  // The two clauses of the claim query, the activity test of the second left to the caller.
  predicate Claimable(st: State, now: Instant) {
    (st.fireAt.Some? && st.fireAt.value <= now) || (st.queued && st.fireAt.None?)
  }

  // A claim first releases a follow-up that no finished run released.
  function Released(st: State, t: EventTrigger, now: Instant): State {
    if st.queued && st.fireAt.None? then Finished(st, t, now) else st
  }

  predicate IsDue(st: State, now: Instant) { st.fireAt.Some? && st.fireAt.value <= now }

  // The row after one iteration of the claim loop, and the fire it hands out, if any.
  function ClaimedRow(st: State, t: EventTrigger, now: Instant, startsNow: bool): State {
    var r := Released(st, t, now);
    if IsDue(r, now) then Due(r, t, now, startsNow) else r
  }

  function ClaimedFire(st: State, t: EventTrigger, now: Instant, startsNow: bool): Option<Fired> {
    if IsDue(Released(st, t, now), now) && startsNow then Some(FiredBy(Released(st, t, now))) else None
  }

  function RequeuedRow(st: State, t: EventTrigger, fired: Fired, now: Instant, idle: bool): State {
    if idle then Finished(Requeued(st, t, fired), t, now) else Requeued(st, t, fired)
  }

  predicate Enabled(p: Protocol, s: Step) {
    match s
    case Claim(_, now, _) => Claimable(p.st, now)
    case Start(i, _) => i < |p.flights|
    case Lose(i) => i < |p.flights|
    case Requeue(i, _, _, _) => i < |p.flights|
    case _ => true
  }

  function Next(p: Protocol, s: Step): Protocol
    requires Enabled(p, s)
  {
    match s
    case Ingest(t, ev, now, ownRun, runActive, concurrent) =>
      var outcome := IngestOutcome(t, ownRun, runActive, concurrent);
      var token := |p.log|;
      var q := p.(st := Ingested(p.st, t, ev, now, outcome), log := p.log + [ev], heard := p.heard + [now]);
      (match outcome
       case OwnRun => q.(ignored := p.ignored + multiset{token})
       case Skipped => q.(skipped := p.skipped + multiset{token})
       case _ => q.(burst := p.burst + [token]))
    case Claim(t, now, startsNow) =>
      var q := p.(st := ClaimedRow(p.st, t, now, startsNow));
      if !IsDue(Released(p.st, t, now), now) then q
      else if startsNow then
        q.(flights := p.flights + [Flight(FiredBy(Released(p.st, t, now)), p.burst)], burst := [], fires := p.fires + [now])
      else if t.whenRunning == QueueOne then q
      else q.(skipped := p.skipped + multiset(p.burst), burst := [])
    case Start(i, runId) =>
      p.(flights := Remove(p.flights, i), carried := p.carried + [Carried(runId, p.flights[i].fired, p.flights[i].burst)])
    case Lose(i) =>
      p.(flights := Remove(p.flights, i), lost := p.lost + multiset(p.flights[i].burst))
    case Requeue(i, t, now, idle) =>
      var f := p.flights[i];
      var q := p.(st := RequeuedRow(p.st, t, f.fired, now, idle), flights := Remove(p.flights, i));
      if t.whenRunning == Skip then q.(skipped := p.skipped + multiset(f.burst)) else q.(burst := f.burst + p.burst)
    case Release(t, now) => p.(st := Finished(p.st, t, now))
    case MissEvents(t, now) => p.(st := Missed(p.st, t, now), outages := p.outages + 1)
    case TurnOff => p.(st := Reset(p.st), burst := [], discarded := p.discarded + multiset(p.burst))
  }

  // A run of the protocol: states[i] --steps[i]--> states[i+1].
  ghost predicate IsRun(states: seq<Protocol>, steps: seq<Step>) {
    && |states| == |steps| + 1
    && states[0] == INITIAL
    && (forall i :: 0 <= i < |steps| ==> Enabled(states[i], steps[i]) && states[i + 1] == Next(states[i], steps[i]))
  }

  lemma RunExtends(states: seq<Protocol>, steps: seq<Step>, step: Step)
    requires IsRun(states, steps) && Enabled(states[|steps|], step)
    ensures IsRun(states + [Next(states[|steps|], step)], steps + [step])
  {
  }

  // ---- exactly one place per event, and exact contents ----

  function Records(burst: seq<Token>, log: seq<TriggerEvent>): seq<EventRecord>
    requires forall i :: 0 <= i < |burst| ==> 0 <= burst[i] < |log|
  {
    seq(|burst|, i requires 0 <= i < |burst| => Record(log[burst[i]]))
  }

  // A fire (or a row) tells exactly its burst: the first 100 events in order, and the full count.
  ghost predicate Tells(events: seq<EventRecord>, count: nat, burst: seq<Token>, log: seq<TriggerEvent>) {
    && (forall i :: 0 <= i < |burst| ==> 0 <= burst[i] < |log|)
    && count == |burst|
    && events == Take(Records(burst, log), MAX_RUN_EVENTS)
  }

  ghost predicate Exact(p: Protocol) {
    && Tells(p.st.events, p.st.eventCount, p.burst, p.log)
    && (forall f :: f in p.flights ==> Tells(f.fired.events, f.fired.count, f.burst, p.log))
    && (forall c :: c in p.carried ==> Tells(c.fired.events, c.fired.count, c.burst, p.log))
    && p.st.ignoredOwnRuns == |p.ignored|
    && p.st.skippedWhileRunning == |p.skipped|
  }

  function Upto(n: nat): multiset<Token> { if n == 0 then multiset{} else Upto(n - 1) + multiset{n - 1} }

  function InFlight(flights: seq<Flight>): multiset<Token> {
    if flights == [] then multiset{} else multiset(flights[0].burst) + InFlight(flights[1..])
  }

  function InRuns(carried: seq<Carried>): multiset<Token> {
    if carried == [] then multiset{} else InRuns(carried[..|carried| - 1]) + multiset(carried[|carried| - 1].burst)
  }

  // Every token is in exactly one place.
  ghost predicate Conserved(p: Protocol) {
    Upto(|p.log|) ==
      multiset(p.burst) + (InFlight(p.flights) + InRuns(p.carried)) + p.ignored + p.skipped + (p.discarded + p.lost)
  }

  lemma SumAssociates(a: multiset<Token>, b: multiset<Token>, c: multiset<Token>)
    ensures a + b + c == a + (b + c)
    ensures a + b + c == b + (a + c)
  {
  }

  lemma InFlightHead(a: seq<Flight>)
    ensures InFlight(a) == if a == [] then multiset{} else multiset(a[0].burst) + InFlight(a[1..])
  {
  }

  lemma {:induction false} InFlightConcat(a: seq<Flight>, b: seq<Flight>)
    ensures InFlight(a + b) == InFlight(a) + InFlight(b)
  {
    hide InFlight;
    InFlightHead(a);
    if a == [] {
      assert a + b == b;
    } else {
      InFlightHead(a + b);
      InFlightConcat(a[1..], b);
      assert (a + b)[1..] == a[1..] + b;
      SumAssociates(multiset(a[0].burst), InFlight(a[1..]), InFlight(b));
    }
  }

  lemma InFlightOne(f: Flight)
    ensures InFlight([f]) == multiset(f.burst)
  {
    assert InFlight([f][1..]) == multiset{};
  }

  lemma InFlightRemove(flights: seq<Flight>, i: nat)
    requires i < |flights|
    ensures InFlight(flights) == multiset(flights[i].burst) + InFlight(Remove(flights, i))
  {
    hide InFlight;
    var before, f, after := flights[..i], flights[i], flights[i + 1..];
    assert flights == (before + [f]) + after;
    InFlightConcat(before + [f], after);
    InFlightConcat(before, [f]);
    InFlightOne(f);
    InFlightConcat(before, after);
    SumAssociates(InFlight(before), multiset(f.burst), InFlight(after));
  }

  lemma InFlightAppend(flights: seq<Flight>, f: Flight)
    ensures InFlight(flights + [f]) == InFlight(flights) + multiset(f.burst)
  {
    InFlightConcat(flights, [f]);
    InFlightOne(f);
  }

  lemma InRunsAppend(carried: seq<Carried>, c: Carried)
    ensures InRuns(carried + [c]) == InRuns(carried) + multiset(c.burst)
  {
    assert (carried + [c])[..|carried|] == carried;
  }

  lemma TellsKept(events: seq<EventRecord>, count: nat, burst: seq<Token>, log: seq<TriggerEvent>, ev: TriggerEvent)
    requires Tells(events, count, burst, log)
    ensures Tells(events, count, burst, log + [ev])
  {
    assert Records(burst, log + [ev]) == Records(burst, log);
  }

  lemma TellsAdded(st: State, ev: TriggerEvent, burst: seq<Token>, log: seq<TriggerEvent>)
    requires Tells(st.events, st.eventCount, burst, log)
    ensures Tells(Added(st, ev).events, Added(st, ev).eventCount, burst + [|log|], log + [ev])
  {
    assert Records(burst + [|log|], log + [ev]) == Records(burst, log) + [Record(ev)];
  }

  // Prepending a claimed fire to a burst that kept growing still gives the first 100 of the whole burst.
  lemma TellsRequeued(st: State, t: EventTrigger, f: Flight, burst: seq<Token>, log: seq<TriggerEvent>)
    requires Tells(st.events, st.eventCount, burst, log)
    requires Tells(f.fired.events, f.fired.count, f.burst, log)
    requires t.whenRunning == QueueOne
    ensures Tells(Requeued(st, t, f.fired).events, Requeued(st, t, f.fired).eventCount, f.burst + burst, log)
  {
    assert Records(f.burst + burst, log) == Records(f.burst, log) + Records(burst, log);
    var a, b := Records(f.burst, log), Records(burst, log);
    assert Take(Take(a, MAX_RUN_EVENTS) + Take(b, MAX_RUN_EVENTS), MAX_RUN_EVENTS) == Take(a + b, MAX_RUN_EVENTS);
  }

  lemma ExactIngest(p: Protocol, t: EventTrigger, ev: TriggerEvent, now: Instant, outcome: Outcome)
    requires Exact(p)
    ensures forall f :: f in p.flights ==> Tells(f.fired.events, f.fired.count, f.burst, p.log + [ev])
    ensures forall c :: c in p.carried ==> Tells(c.fired.events, c.fired.count, c.burst, p.log + [ev])
    ensures var st := Ingested(p.st, t, ev, now, outcome);
            Tells(st.events, st.eventCount, if outcome.OwnRun? || outcome.Skipped? then p.burst else p.burst + [|p.log|], p.log + [ev])
  {
    forall f | f in p.flights ensures Tells(f.fired.events, f.fired.count, f.burst, p.log + [ev]) {
      TellsKept(f.fired.events, f.fired.count, f.burst, p.log, ev);
    }
    forall c | c in p.carried ensures Tells(c.fired.events, c.fired.count, c.burst, p.log + [ev]) {
      TellsKept(c.fired.events, c.fired.count, c.burst, p.log, ev);
    }
    TellsKept(p.st.events, p.st.eventCount, p.burst, p.log, ev);
    TellsAdded(p.st, ev, p.burst, p.log);
  }

  lemma RemoveKeeps<T>(s: seq<T>, i: nat)
    requires i < |s|
    ensures forall x :: x in Remove(s, i) ==> x in s
  {
  }

  lemma TellsNothing(log: seq<TriggerEvent>)
    ensures Tells([], 0, [], log)
  {
    assert Records([], log) == [];
  }

  lemma ExactNextIngest(p: Protocol, s: Step)
    requires Exact(p) && s.Ingest?
    ensures Exact(Next(p, s))
  {
    ExactIngest(p, s.t, s.ev, s.now, IngestOutcome(s.t, s.ownRun, s.runActive, s.concurrent));
  }

  // What a claim does to the row's events and counters: they leave with the fire, stay, or are skipped.
  lemma ClaimedCounts(st: State, t: EventTrigger, now: Instant, startsNow: bool)
    ensures var r, st' := Released(st, t, now), ClaimedRow(st, t, now, startsNow);
            && r.events == st.events && r.eventCount == st.eventCount
            && st'.ignoredOwnRuns == st.ignoredOwnRuns
            && (if IsDue(r, now) && (startsNow || t.whenRunning == Skip)
                then st'.events == [] && st'.eventCount == 0 else st'.events == st.events && st'.eventCount == st.eventCount)
            && st'.skippedWhileRunning == st.skippedWhileRunning + (if IsDue(r, now) && !startsNow && t.whenRunning == Skip then st.eventCount else 0)
  {
  }

  lemma ExactNextClaim(p: Protocol, s: Step)
    requires Exact(p) && s.Claim? && Enabled(p, s)
    ensures Exact(Next(p, s))
  {
    assert p.st.eventCount == |p.burst| == |multiset(p.burst)|;
    TellsNothing(p.log);
    ClaimedCounts(p.st, s.t, s.now, s.startsNow);
    hide Tells, Released, ClaimedRow, IsDue;
  }

  lemma ExactNextRequeue(p: Protocol, s: Step)
    requires Exact(p) && s.Requeue? && Enabled(p, s)
    ensures Exact(Next(p, s))
  {
    RemoveKeeps(p.flights, s.flight);
    assert p.flights[s.flight] in p.flights;
    if s.t.whenRunning == QueueOne {
      TellsRequeued(p.st, s.t, p.flights[s.flight], p.burst, p.log);
    }
  }

  lemma ExactNext(p: Protocol, s: Step)
    requires Exact(p) && Enabled(p, s)
    ensures Exact(Next(p, s))
  {
    match s
    case Ingest(_, _, _, _, _, _) => ExactNextIngest(p, s);
    case Claim(_, _, _) => ExactNextClaim(p, s);
    case Start(i, _) => RemoveKeeps(p.flights, i);
    case Lose(i) => RemoveKeeps(p.flights, i);
    case Requeue(_, _, _, _) => ExactNextRequeue(p, s);
    case Release(_, _) =>
    case MissEvents(_, _) =>
    case TurnOff => TellsNothing(p.log);
  }

  lemma SumAdd(total: multiset<Token>, a: multiset<Token>, b: multiset<Token>, c: multiset<Token>, d: multiset<Token>,
               e: multiset<Token>, x: multiset<Token>)
    requires total == a + b + c + d + e
    ensures total + x == (a + x) + b + c + d + e
    ensures total + x == a + b + (c + x) + d + e
    ensures total + x == a + b + c + (d + x) + e
  {
  }

  lemma ConservedNextIngest(p: Protocol, s: Step)
    requires Conserved(p) && s.Ingest?
    ensures Conserved(Next(p, s))
  {
    var token := |p.log|;
    assert multiset(p.burst + [token]) == multiset(p.burst) + multiset{token};
    assert Upto(|p.log + [s.ev]|) == Upto(token) + multiset{token};
    SumAdd(Upto(token), multiset(p.burst), InFlight(p.flights) + InRuns(p.carried), p.ignored, p.skipped,
           p.discarded + p.lost, multiset{token});
  }

  lemma ConservedNextClaim(p: Protocol, s: Step)
    requires Conserved(p) && s.Claim? && Enabled(p, s)
    ensures Conserved(Next(p, s))
  {
    InFlightAppend(p.flights, Flight(FiredBy(Released(p.st, s.t, s.now)), p.burst));
    var none: seq<Token> := [];
    assert multiset(none) == multiset{};
  }

  // A flight's tokens `x` move to a run, to the lost ones, to the skipped ones, or back to the burst.
  lemma SumMove(total: multiset<Token>, a: multiset<Token>, f: multiset<Token>, r: multiset<Token>, c: multiset<Token>,
                d: multiset<Token>, e: multiset<Token>, l: multiset<Token>, x: multiset<Token>, f': multiset<Token>)
    requires total == a + (f + r) + c + d + (e + l) && f == x + f'
    ensures total == a + (f' + (r + x)) + c + d + (e + l)
    ensures total == a + (f' + r) + c + d + (e + (l + x))
    ensures total == a + (f' + r) + c + (d + x) + (e + l)
    ensures total == (x + a) + (f' + r) + c + d + (e + l)
  {
  }

  lemma ConservedNextFlight(p: Protocol, s: Step)
    requires Conserved(p) && (s.Start? || s.Lose? || s.Requeue?) && Enabled(p, s)
    ensures Conserved(Next(p, s))
  {
    var f := p.flights[s.flight];
    InFlightRemove(p.flights, s.flight);
    SumMove(Upto(|p.log|), multiset(p.burst), InFlight(p.flights), InRuns(p.carried), p.ignored, p.skipped, p.discarded, p.lost,
            multiset(f.burst), InFlight(Remove(p.flights, s.flight)));
    if s.Start? {
      InRunsAppend(p.carried, Carried(s.runId, f.fired, f.burst));
    } else if s.Requeue? && s.t.whenRunning == QueueOne {
      assert multiset(f.burst + p.burst) == multiset(f.burst) + multiset(p.burst);
    }
  }

  lemma ConservedNext(p: Protocol, s: Step)
    requires Conserved(p) && Enabled(p, s)
    ensures Conserved(Next(p, s))
  {
    match s
    case Ingest(_, _, _, _, _, _) => ConservedNextIngest(p, s);
    case Claim(_, _, _) => ConservedNextClaim(p, s);
    case Start(_, _) => ConservedNextFlight(p, s);
    case Lose(_) => ConservedNextFlight(p, s);
    case Requeue(_, _, _, _) => ConservedNextFlight(p, s);
    case Release(_, _) =>
    case MissEvents(_, _) =>
    case TurnOff =>
  }

  lemma NothingYet()
    ensures Conserved(INITIAL) && Exact(INITIAL)
  {
    TellsNothing([]);
  }

  // Where every ingested matching event is, at any point of any run: the pending burst, a claimed fire,
  // a created run, or one of the four counted ways an event is dropped; each event in exactly one of them.
  lemma {:induction false} EveryEventIsInOnePlace(states: seq<Protocol>, steps: seq<Step>, k: nat)
    requires IsRun(states, steps) && k < |states|
    ensures Conserved(states[k])
    ensures Exact(states[k])
  {
    hide Conserved, Exact, Next, Enabled;
    if k == 0 {
      NothingYet();
    } else {
      EveryEventIsInOnePlace(states, steps, k - 1);
      assert states[k] == Next(states[k - 1], steps[k - 1]);
      ConservedNext(states[k - 1], steps[k - 1]);
      ExactNext(states[k - 1], steps[k - 1]);
    }
  }

  function FlightCounts(flights: seq<Flight>): nat {
    if flights == [] then 0 else flights[0].fired.count + FlightCounts(flights[1..])
  }

  function RunCounts(carried: seq<Carried>): nat {
    if carried == [] then 0 else RunCounts(carried[..|carried| - 1]) + carried[|carried| - 1].fired.count
  }

  lemma {:induction false} FlightCountsExact(flights: seq<Flight>)
    requires forall i :: 0 <= i < |flights| ==> flights[i].fired.count == |flights[i].burst|
    ensures FlightCounts(flights) == |InFlight(flights)|
  {
    if flights != [] { FlightCountsExact(flights[1..]); }
  }

  lemma {:induction false} RunCountsExact(carried: seq<Carried>)
    requires forall i :: 0 <= i < |carried| ==> carried[i].fired.count == |carried[i].burst|
    ensures RunCounts(carried) == |InRuns(carried)|
  {
    if carried != [] { RunCountsExact(carried[..|carried| - 1]); }
  }

  lemma {:induction false} UptoSize(n: nat)
    ensures |Upto(n)| == n
  {
    if n > 0 { UptoSize(n - 1); }
  }

  // The same in the program's own counters: nothing is counted twice and nothing goes missing.
  lemma CountsAddUp(states: seq<Protocol>, steps: seq<Step>, k: nat)
    requires IsRun(states, steps) && k < |states|
    ensures var p := states[k];
            |p.log| == p.st.ignoredOwnRuns + p.st.skippedWhileRunning + p.st.eventCount
                       + FlightCounts(p.flights) + RunCounts(p.carried) + |p.discarded| + |p.lost|
  {
    EveryEventIsInOnePlace(states, steps, k);
    UptoSize(|states[k].log|);
    FlightCountsExact(states[k].flights);
    RunCountsExact(states[k].carried);
  }

  // Every run ever created was told exactly the first 100 events of the burst that fired it, and its size.
  lemma RunsAreToldTheirBurst(states: seq<Protocol>, steps: seq<Step>, k: nat, r: nat)
    requires IsRun(states, steps) && k < |states| && r < |states[k].carried|
    ensures var c := states[k].carried[r];
            Tells(c.fired.events, c.fired.count, c.burst, states[k].log)
  {
    EveryEventIsInOnePlace(states, steps, k);
  }

  // ---- no lost wake-up ----

  // Something to deliver implies something that will deliver it.
  predicate Awake(st: State) {
    st.eventCount > 0 || st.missedEvents ==> st.fireAt.Some? || st.queued
  }

  lemma AwakeClaimed(st: State, t: EventTrigger, now: Instant, startsNow: bool)
    requires Awake(st)
    ensures Awake(ClaimedRow(st, t, now, startsNow))
  {
  }

  lemma AwakeRequeued(st: State, t: EventTrigger, fired: Fired, now: Instant, idle: bool)
    requires Awake(st)
    ensures Awake(RequeuedRow(st, t, fired, now, idle))
  {
  }

  lemma AwakeIngested(st: State, t: EventTrigger, ev: TriggerEvent, now: Instant, outcome: Outcome)
    requires Awake(st)
    ensures Awake(Ingested(st, t, ev, now, outcome))
  {
  }

  lemma AwakeNext(p: Protocol, s: Step)
    requires Awake(p.st) && Enabled(p, s)
    ensures Awake(Next(p, s).st)
  {
    match s
    case Ingest(t, ev, now, ownRun, runActive, concurrent) =>
      AwakeIngested(p.st, t, ev, now, IngestOutcome(t, ownRun, runActive, concurrent));
    case Claim(t, now, startsNow) => AwakeClaimed(p.st, t, now, startsNow);
    case Start(_, _) =>
    case Lose(_) =>
    case Requeue(i, t, now, idle) => AwakeRequeued(p.st, t, p.flights[i].fired, now, idle);
    case Release(t, now) => assert Awake(Finished(p.st, t, now));
    case MissEvents(t, now) => assert Awake(Missed(p.st, t, now));
    case TurnOff => assert Awake(Reset(p.st));
  }

  lemma {:induction false} NoLostWakeUp(states: seq<Protocol>, steps: seq<Step>, k: nat)
    requires IsRun(states, steps) && k < |states|
    ensures Awake(states[k].st)
  {
    if k > 0 {
      hide Awake, Next, Enabled;
      NoLostWakeUp(states, steps, k - 1);
      assert states[k] == Next(states[k - 1], steps[k - 1]);
      AwakeNext(states[k - 1], steps[k - 1]);
    }
  }

  // ---- timing ----

  // Bounds on the settings in force over a run; with one setting throughout they are that setting's.
  datatype Bounds = Bounds(minGap: nat, maxGap: nat, maxWait: nat, maxDebounce: nat)

  predicate Within(t: EventTrigger, b: Bounds) {
    b.minGap <= t.minGapSeconds <= b.maxGap && t.maxWaitSeconds <= b.maxWait && t.debounceSeconds <= b.maxDebounce
  }

  predicate StepWithin(s: Step, b: Bounds) {
    match s
    case Ingest(t, _, _, _, _, _) => Within(t, b)
    case Claim(t, _, _) => Within(t, b)
    case Requeue(_, t, _, _) => Within(t, b)
    case Release(t, _) => Within(t, b)
    case MissEvents(t, _) => Within(t, b)
    case _ => true
  }

  predicate Timed(st: State, b: Bounds) {
    && (st.pendingSince.Some? <==> st.fireAt.Some?)
    && (st.fireAt.Some? && st.lastFiredAt.Some? ==> st.lastFiredAt.value + Seconds(b.minGap) <= st.fireAt.value)
    && (st.fireAt.Some? ==>
          || st.fireAt.value <= st.pendingSince.value + Seconds(b.maxWait)
          || (st.lastFiredAt.Some? && st.fireAt.value <= st.lastFiredAt.value + Seconds(b.maxGap)))
  }

  // Successive fires are at least the gap apart, and the row remembers the last one.
  ghost predicate Spaced(p: Protocol, b: Bounds) {
    && (forall i :: 0 <= i < |p.fires| - 1 ==> p.fires[i] + Seconds(b.minGap) <= p.fires[i + 1])
    && p.st.lastFiredAt == (if p.fires == [] then None else Some(p.fires[|p.fires| - 1]))
  }

  // The row keeps its timing under each rule, and only a fire moves lastFiredAt.
  ghost predicate KeepsTiming(before: State, after: State, b: Bounds) {
    Timed(before, b) ==> Timed(after, b) && after.lastFiredAt == before.lastFiredAt
  }

  lemma IngestedKeepsTiming(st: State, t: EventTrigger, ev: TriggerEvent, now: Instant, outcome: Outcome, b: Bounds)
    requires Within(t, b)
    ensures KeepsTiming(st, Ingested(st, t, ev, now, outcome), b)
  {
  }

  lemma FinishedKeepsTiming(st: State, t: EventTrigger, now: Instant, b: Bounds)
    requires Within(t, b)
    ensures KeepsTiming(st, Finished(st, t, now), b)
  {
  }

  lemma RequeuedKeepsTiming(st: State, t: EventTrigger, fired: Fired, now: Instant, idle: bool, b: Bounds)
    requires Within(t, b)
    ensures KeepsTiming(st, RequeuedRow(st, t, fired, now, idle), b)
  {
    FinishedKeepsTiming(Requeued(st, t, fired), t, now, b);
  }

  lemma ClaimedTiming(st: State, t: EventTrigger, now: Instant, startsNow: bool, b: Bounds)
    requires Within(t, b) && Timed(st, b)
    ensures var st' := ClaimedRow(st, t, now, startsNow);
            && Timed(st', b)
            && (if IsDue(Released(st, t, now), now) && startsNow
                then st'.lastFiredAt == Some(now) && (st.lastFiredAt.Some? ==> st.lastFiredAt.value + Seconds(b.minGap) <= now)
                else st'.lastFiredAt == st.lastFiredAt)
  {
    FinishedKeepsTiming(st, t, now, b);
  }

  lemma TimedNextClaim(p: Protocol, s: Step, b: Bounds)
    requires Timed(p.st, b) && Spaced(p, b) && s.Claim? && Enabled(p, s) && StepWithin(s, b)
    ensures Timed(Next(p, s).st, b) && Spaced(Next(p, s), b)
  {
    ClaimedTiming(p.st, s.t, s.now, s.startsNow, b);
    assert Next(p, s).st == ClaimedRow(p.st, s.t, s.now, s.startsNow);
    if IsDue(Released(p.st, s.t, s.now), s.now) && s.startsNow {
      assert Next(p, s).fires == p.fires + [s.now];
    } else {
      assert Next(p, s).fires == p.fires;
    }
  }

  lemma TimedNext(p: Protocol, s: Step, b: Bounds)
    requires Timed(p.st, b) && Spaced(p, b) && Enabled(p, s) && StepWithin(s, b)
    ensures Timed(Next(p, s).st, b) && Spaced(Next(p, s), b)
  {
    if s.Claim? {
      TimedNextClaim(p, s, b);
    } else {
      var q := Next(p, s);
      assert q.fires == p.fires;
      assert KeepsTiming(p.st, q.st, b) by {
        match s
        case Ingest(t, ev, now, ownRun, runActive, concurrent) =>
          IngestedKeepsTiming(p.st, t, ev, now, IngestOutcome(t, ownRun, runActive, concurrent), b);
        case Requeue(i, t, now, idle) => RequeuedKeepsTiming(p.st, t, p.flights[i].fired, now, idle, b);
        case Release(t, now) => FinishedKeepsTiming(p.st, t, now, b);
        case _ =>
      }
    }
  }

  // pending_since and fire_at are set together, and fire_at is never sooner than the gap after the last
  // fire nor later than the longest wait allows, however many events arrive and whatever the clocks say.
  lemma {:induction false} FireTimeIsBounded(states: seq<Protocol>, steps: seq<Step>, k: nat, b: Bounds)
    requires IsRun(states, steps) && k < |states|
    requires forall i :: 0 <= i < |steps| ==> StepWithin(steps[i], b)
    ensures Timed(states[k].st, b) && Spaced(states[k], b)
  {
    if k > 0 {
      FireTimeIsBounded(states, steps, k - 1, b);
      assert states[k] == Next(states[k - 1], steps[k - 1]);
      TimedNext(states[k - 1], steps[k - 1], b);
    }
  }

  lemma {:induction false} SpacedApart(fires: seq<Instant>, gap: Instant, i: nat, j: nat)
    requires gap >= 0 && i < j < |fires|
    requires forall n :: 0 <= n < |fires| - 1 ==> fires[n] + gap <= fires[n + 1]
    ensures fires[j] - fires[i] >= (j - i) * gap
    decreases j
  {
    if j == i + 1 {
      assert fires[i] + gap <= fires[i + 1];
    } else {
      SpacedApart(fires, gap, i, j - 1);
      assert fires[j - 1] + gap <= fires[j - 1 + 1];
      assert (j - i) * gap == (j - 1 - i) * gap + gap;
    }
  }

  // Any two claimed fires of one pipeline are the minimum gap apart, and n fires take n-1 gaps.
  lemma FiresAreSpaced(states: seq<Protocol>, steps: seq<Step>, k: nat, b: Bounds, i: nat, j: nat)
    requires IsRun(states, steps) && k < |states| && i < j < |states[k].fires|
    requires forall n :: 0 <= n < |steps| ==> StepWithin(steps[n], b)
    ensures states[k].fires[j] - states[k].fires[i] >= (j - i) * Seconds(b.minGap)
  {
    FireTimeIsBounded(states, steps, k, b);
    SpacedApart(states[k].fires, Seconds(b.minGap), i, j);
  }

  // ---- arrival order ----

  ghost predicate Ascending(s: seq<Token>) { forall i, j :: 0 <= i < j < |s| ==> s[i] < s[j] }

  ghost predicate Before(s: seq<Token>, t: seq<Token>) { forall i, j :: 0 <= i < |s| && 0 <= j < |t| ==> s[i] < t[j] }

  // Every burst, pending, in flight or told to a run, is in arrival order.
  ghost predicate InOrder(p: Protocol) {
    && Ascending(p.burst)
    && (forall f :: f in p.flights ==> Ascending(f.burst))
    && (forall c :: c in p.carried ==> Ascending(c.burst))
  }

  // A fire is put back in turn if its last event came before the first pending one.
  predicate InTurn(p: Protocol, s: Step)
    requires Enabled(p, s)
  {
    s.Requeue? && s.t.whenRunning == QueueOne ==>
      var f := p.flights[s.flight].burst; f == [] || p.burst == [] || f[|f| - 1] < p.burst[0]
  }

  lemma AscendingConcatIff(s: seq<Token>, t: seq<Token>)
    requires Ascending(s) && Ascending(t)
    ensures Ascending(s + t) <==> s == [] || t == [] || s[|s| - 1] < t[0]
  {
    if s != [] && t != [] {
      var whole := s + t;
      assert whole[|s| - 1] == s[|s| - 1] && whole[|s|] == t[0];
      if s[|s| - 1] < t[0] {
        forall i, j | 0 <= i < j < |whole| ensures whole[i] < whole[j] {
          assert i < |s| ==> s[i] <= s[|s| - 1];
          assert |s| <= j ==> t[0] <= t[j - |s|];
        }
      }
    } else {
      assert s + t == if s == [] then t else s;
    }
  }

  lemma InOrderNextRequeue(p: Protocol, s: Step)
    requires InOrder(p) && s.Requeue? && Enabled(p, s)
    ensures InOrder(Next(p, s)) <==> InTurn(p, s)
  {
    assert p.flights[s.flight] in p.flights;
    RemoveKeeps(p.flights, s.flight);
    AscendingConcatIff(p.flights[s.flight].burst, p.burst);
  }

  lemma InOrderNext(p: Protocol, s: Step)
    requires InOrder(p) && Exact(p) && Enabled(p, s)
    ensures InOrder(Next(p, s)) <==> InTurn(p, s)
  {
    match s
    case Ingest(_, _, _, _, _, _) =>
    case Claim(_, _, _) =>
    case Start(i, _) => RemoveKeeps(p.flights, i); assert p.flights[i] in p.flights;
    case Lose(i) => RemoveKeeps(p.flights, i);
    case Requeue(_, _, _, _) => InOrderNextRequeue(p, s);
    case Release(_, _) =>
    case MissEvents(_, _) =>
    case TurnOff =>
  }

  lemma {:induction false} InOrderUntil(states: seq<Protocol>, steps: seq<Step>, k: nat)
    requires IsRun(states, steps) && k < |states|
    requires forall i :: 0 <= i < k ==> InTurn(states[i], steps[i])
    ensures InOrder(states[k])
  {
    hide InOrder, InTurn, Exact, Conserved, Next, Enabled;
    if k == 0 {
      NothingOutOfOrder();
    } else {
      InOrderUntil(states, steps, k - 1);
      EveryEventIsInOnePlace(states, steps, k - 1);
      assert states[k] == Next(states[k - 1], steps[k - 1]);
      InOrderNext(states[k - 1], steps[k - 1]);
    }
  }

  // However many fires are in flight, every burst of a run, and so every run's 100 events, is in arrival order
  // exactly when every fire that is put back is put back in turn.
  lemma BurstsAreInArrivalOrderIff(states: seq<Protocol>, steps: seq<Step>)
    requires IsRun(states, steps)
    ensures (forall k :: 0 <= k < |states| ==> InOrder(states[k])) <==> (forall i :: 0 <= i < |steps| ==> InTurn(states[i], steps[i]))
  {
    hide InOrder, InTurn, Exact, Conserved, Next, Enabled;
    if forall k :: 0 <= k < |states| ==> InOrder(states[k]) {
      forall i | 0 <= i < |steps| ensures InTurn(states[i], steps[i]) {
        EveryEventIsInOnePlace(states, steps, i);
        assert states[i + 1] == Next(states[i], steps[i]);
        InOrderNext(states[i], steps[i]);
      }
    }
    if forall i :: 0 <= i < |steps| ==> InTurn(states[i], steps[i]) {
      forall k | 0 <= k < |states| ensures InOrder(states[k]) {
        InOrderUntil(states, steps, k);
      }
    }
  }

  // The order claims are made in: fires in flight hold earlier events than those claimed after them, and than
  // what is pending.
  ghost predicate FlightsInOrder(flights: seq<Flight>, burst: seq<Token>) {
    && (forall i :: 0 <= i < |flights| ==> Before(flights[i].burst, burst))
    && (forall i, j :: 0 <= i < j < |flights| ==> Before(flights[i].burst, flights[j].burst))
  }

  ghost predicate InClaimOrder(p: Protocol) {
    InOrder(p) && FlightsInOrder(p.flights, p.burst)
  }

  // A fire that carries events is put back only when no later claimed fire in flight carries any.
  predicate NewestFirst(p: Protocol, s: Step)
    requires Enabled(p, s)
  {
    s.Requeue? && s.t.whenRunning == QueueOne && p.flights[s.flight].fired.count > 0 ==>
      forall j :: s.flight < j < |p.flights| ==> p.flights[j].fired.count == 0
  }

  lemma NothingOutOfOrder()
    ensures InOrder(INITIAL) && InClaimOrder(INITIAL)
  {
  }

  lemma ClaimOrderNextIngest(p: Protocol, s: Step)
    requires InClaimOrder(p) && Exact(p) && s.Ingest?
    ensures InClaimOrder(Next(p, s))
  {
    InOrderNext(p, s);
    forall i | 0 <= i < |p.flights| ensures Before(p.flights[i].burst, p.burst + [|p.log|]) {
      assert p.flights[i] in p.flights;
    }
  }

  lemma ClaimOrderRemove(p: Protocol, i: nat, q: Protocol)
    requires InClaimOrder(p) && i < |p.flights| && q.flights == Remove(p.flights, i) && q.burst == p.burst && InOrder(q)
    ensures InClaimOrder(q)
  {
    hide InOrder, Before;
    forall a, b | 0 <= a < b < |q.flights| ensures Before(q.flights[a].burst, q.flights[b].burst) {
      assert q.flights[a] == p.flights[if a < i then a else a + 1];
      assert q.flights[b] == p.flights[if b < i then b else b + 1];
    }
  }

  lemma BeforeConcatIff(s: seq<Token>, t: seq<Token>, u: seq<Token>)
    ensures Before(s, t + u) <==> Before(s, t) && Before(s, u)
  {
    if Before(s, t + u) {
      forall i, j | 0 <= i < |s| && 0 <= j < |t| ensures s[i] < t[j] { assert (t + u)[j] == t[j]; }
      forall i, j | 0 <= i < |s| && 0 <= j < |u| ensures s[i] < u[j] { assert (t + u)[|t| + j] == u[j]; }
    }
  }

  lemma FlightsPutBack(flights: seq<Flight>, burst: seq<Token>, i: nat)
    requires FlightsInOrder(flights, burst) && i < |flights|
    ensures FlightsInOrder(Remove(flights, i), flights[i].burst + burst)
        <==> forall j :: i < j < |flights| ==> Before(flights[j].burst, flights[i].burst)
  {
    hide Before;
    var f, rest := flights[i].burst, Remove(flights, i);
    forall j | 0 <= j < |flights| ensures Before(flights[j].burst, f + burst) <==> Before(flights[j].burst, f) {
      BeforeConcatIff(flights[j].burst, f, burst);
    }
    assert forall j :: 0 <= j < |rest| ==> rest[j] == flights[if j < i then j else j + 1];
    if FlightsInOrder(rest, f + burst) {
      forall j | i < j < |flights| ensures Before(flights[j].burst, f) {
        assert rest[j - 1] == flights[j];
      }
    }
  }

  lemma ClaimOrderPutBack(p: Protocol, s: Step)
    requires InClaimOrder(p) && s.Requeue? && s.t.whenRunning == QueueOne && Enabled(p, s)
    ensures InClaimOrder(Next(p, s)) <==>
              forall j :: s.flight < j < |p.flights| ==> Before(p.flights[j].burst, p.flights[s.flight].burst)
  {
    var q, f := Next(p, s), p.flights[s.flight].burst;
    assert InTurn(p, s) by {
      if f != [] && p.burst != [] { assert Before(f, p.burst); }
    }
    InOrderNextRequeue(p, s);
    assert q.burst == f + p.burst && q.flights == Remove(p.flights, s.flight);
    hide InOrder, Before, Next, Enabled;
    FlightsPutBack(p.flights, p.burst, s.flight);
  }

  lemma ClaimOrderNextRequeue(p: Protocol, s: Step)
    requires InClaimOrder(p) && Exact(p) && s.Requeue? && s.t.whenRunning == QueueOne && Enabled(p, s)
    ensures InClaimOrder(Next(p, s)) <==> NewestFirst(p, s)
  {
    ClaimOrderPutBack(p, s);
    var f := p.flights[s.flight];
    forall j | s.flight < j < |p.flights|
      ensures Before(p.flights[j].burst, f.burst) <==> f.fired.count == 0 || p.flights[j].fired.count == 0
    {
      var g := p.flights[j];
      assert f in p.flights && g in p.flights && Before(f.burst, g.burst);
      if f.burst != [] && g.burst != [] { assert f.burst[0] < g.burst[0]; }
    }
  }

  lemma ClaimOrderNext(p: Protocol, s: Step)
    requires InClaimOrder(p) && Exact(p) && Enabled(p, s)
    ensures InClaimOrder(Next(p, s)) <==> NewestFirst(p, s)
  {
    match s
    case Ingest(_, _, _, _, _, _) => ClaimOrderNextIngest(p, s);
    case Claim(_, _, _) => InOrderNext(p, s);
    case Start(i, _) => InOrderNext(p, s); ClaimOrderRemove(p, i, Next(p, s));
    case Lose(i) => InOrderNext(p, s); ClaimOrderRemove(p, i, Next(p, s));
    case Requeue(i, t, _, _) =>
      if t.whenRunning == Skip {
        InOrderNext(p, s);
        ClaimOrderRemove(p, i, Next(p, s));
      } else {
        ClaimOrderNextRequeue(p, s);
      }
    case Release(_, _) =>
    case MissEvents(_, _) =>
    case TurnOff =>
  }

  lemma {:induction false} ClaimOrderUntil(states: seq<Protocol>, steps: seq<Step>, k: nat)
    requires IsRun(states, steps) && k < |states|
    requires forall i :: 0 <= i < k ==> NewestFirst(states[i], steps[i])
    ensures InClaimOrder(states[k])
  {
    hide InClaimOrder, NewestFirst, Exact, Conserved, Next, Enabled;
    if k == 0 {
      NothingOutOfOrder();
    } else {
      ClaimOrderUntil(states, steps, k - 1);
      EveryEventIsInOnePlace(states, steps, k - 1);
      assert states[k] == Next(states[k - 1], steps[k - 1]);
      ClaimOrderNext(states[k - 1], steps[k - 1]);
    }
  }

  // Fires in flight and the pending burst stay in claim order, every burst of them in arrival order, exactly
  // when a fire with events is never put back before a newer one with events: the counts a claim hands out
  // are all a scheduler need look at.
  lemma ClaimOrderIff(states: seq<Protocol>, steps: seq<Step>)
    requires IsRun(states, steps)
    ensures (forall k :: 0 <= k < |states| ==> InClaimOrder(states[k])) <==> (forall i :: 0 <= i < |steps| ==> NewestFirst(states[i], steps[i]))
  {
    hide InClaimOrder, NewestFirst, Exact, Conserved, Next, Enabled;
    if forall k :: 0 <= k < |states| ==> InClaimOrder(states[k]) {
      forall i | 0 <= i < |steps| ensures NewestFirst(states[i], steps[i]) {
        EveryEventIsInOnePlace(states, steps, i);
        assert states[i + 1] == Next(states[i], steps[i]);
        ClaimOrderNext(states[i], steps[i]);
      }
    }
    if forall i :: 0 <= i < |steps| ==> NewestFirst(states[i], steps[i]) {
      forall k | 0 <= k < |states| ensures InClaimOrder(states[k]) {
        ClaimOrderUntil(states, steps, k);
      }
    }
  }

  // An event is ingested on a row that waits for nothing, and its fire is claimed.
  lemma OneFire(states: seq<Protocol>, steps: seq<Step>, t: EventTrigger, ev: TriggerEvent)
    returns (states': seq<Protocol>, steps': seq<Step>)
    requires IsRun(states, steps)
    requires var p := states[|steps|]; p.st == Reset(p.st) && p.burst == []
    ensures IsRun(states', steps')
    ensures var p, q := states[|steps|], states'[|steps'|];
            && q.log == p.log + [ev] && q.flights == p.flights + [Flight(Fired([Record(ev)], 1, false), [|p.log|])]
            && q.st == Reset(q.st) && q.burst == [] && q.carried == p.carried
  {
    var p, a := states[|steps|], Ingest(t, ev, 0, false, false, false);
    var q := Next(p, a);
    assert q.burst == [|p.log|] && q.st.fireAt.Some? && q.st.events == [Record(ev)] && q.st.eventCount == 1 && !q.st.queued && !q.st.missedEvents;
    var b := Claim(t, q.st.fireAt.value, true);
    assert Released(q.st, t, b.now) == q.st && FiredBy(q.st) == Fired([Record(ev)], 1, false);
    var r := Next(q, b);
    assert r.st == Reset(r.st) && r.flights == p.flights + [Flight(FiredBy(q.st), [|p.log|])];
    hide Next, Enabled;
    RunExtends(states, steps, a);
    RunExtends(states + [q], steps + [a], b);
    states', steps' := states + [q] + [r], steps + [a] + [b];
  }

  // The oldest fire in flight is put back on a row with no timer.
  lemma OnePutBack(states: seq<Protocol>, steps: seq<Step>, t: EventTrigger) returns (states': seq<Protocol>, steps': seq<Step>)
    requires IsRun(states, steps) && t.whenRunning == QueueOne && states[|steps|].flights != []
    ensures IsRun(states', steps')
    ensures var p, q := states[|steps|], states'[|steps'|];
            && q.st == Requeued(p.st, t, p.flights[0].fired) && q.burst == p.flights[0].burst + p.burst
            && q.flights == p.flights[1..] && q.log == p.log && q.carried == p.carried
  {
    var p, s := states[|steps|], Requeue(0, t, 0, false);
    RunExtends(states, steps, s);
    states', steps' := states + [Next(p, s)], steps + [s];
    hide IsRun;
    assert Remove(p.flights, 0) == p.flights[1..];
  }

  // What waits with no timer is released, claimed and told to a run.
  lemma OneRunTold(states: seq<Protocol>, steps: seq<Step>, t: EventTrigger, runId: string) returns (states': seq<Protocol>, steps': seq<Step>)
    requires IsRun(states, steps) && states[|steps|].st.queued && states[|steps|].st.fireAt.None? && states[|steps|].flights == []
    ensures IsRun(states', steps')
    ensures var p, q := states[|steps|], states'[|steps'|];
            |states'| == |steps'| + 1 && q.log == p.log && q.carried == p.carried + [Carried(runId, FiredBy(p.st), p.burst)]
  {
    var p, a := states[|steps|], Release(t, 0);
    var q := Next(p, a);
    assert q.st.fireAt.Some? && FiredBy(q.st) == FiredBy(p.st) && !q.st.queued;
    var b := Claim(t, q.st.fireAt.value, true);
    var r := Next(q, b);
    assert Released(q.st, t, b.now) == q.st && r.flights == [Flight(FiredBy(p.st), p.burst)];
    var c := Start(0, runId);
    var s := Next(r, c);
    hide Next, Enabled;
    RunExtends(states, steps, a);
    RunExtends(states + [q], steps + [a], b);
    RunExtends(states + [q] + [r], steps + [a] + [b], c);
    states', steps' := states + [q] + [r] + [s], steps + [a] + [b] + [c];
  }

  lemma NothingYetRuns()
    ensures IsRun([INITIAL], [])
  {
  }

  lemma OutOfOrder(p: Protocol)
    requires |p.carried| == 1 && p.carried[0].burst == [1, 0]
    ensures !InOrder(p)
  {
    assert p.carried[0] in p.carried && p.carried[0].burst[1] < p.carried[0].burst[0];
  }

  // Two bursts of one event each are claimed, the older fire is put back and then the newer one: the next fire
  // is claimed with the second event before the first, and a run is told so.
  lemma PutBackOutOfTurn(t: EventTrigger, first: TriggerEvent, second: TriggerEvent, runId: string)
    returns (states: seq<Protocol>, steps: seq<Step>)
    requires t.whenRunning == QueueOne
    ensures IsRun(states, steps)
    ensures var p := states[|steps|];
            && p.log == [first, second] && |p.carried| == 1 && p.carried[0].burst == [1, 0]
            && p.carried[0].fired.events == [Record(second), Record(first)] && !InOrder(p)
  {
    hide IsRun, InOrder;
    states, steps := [INITIAL], [];
    assert IsRun(states, steps) by { NothingYetRuns(); }
    states, steps := OneFire(states, steps, t, first);
    states, steps := OneFire(states, steps, t, second);
    states, steps := OnePutBack(states, steps, t);
    states, steps := OnePutBack(states, steps, t);
    states, steps := OneRunTold(states, steps, t, runId);
    OutOfOrder(states[|steps|]);
  }
}
