// Time schedules: the slot arithmetic (src/booth_pipeline/schedule.py), the claim that advances next_run_at
// (src/booth_pipeline/store/memory.py) and the slot a claimed run is for (src/booth_pipeline/service.py).
module Schedule {
  import opened Basics
  import opened Triggers
  import opened Sorting

  const SECOND: Instant := 1_000_000

  // A cron expression in a time zone is taken as what croniter enumerates: its instants in order, at least a
  // minute apart (classic 5-field cron has no seconds).
  datatype Trigger =
    | Cron(slots: int -> Instant)
    | Interval(seconds: nat)

  ghost predicate MinuteApart(slots: int -> Instant, i: int) { slots(i) + 60 * SECOND <= slots(i + 1) }

  ghost predicate WellFormed(t: Trigger) {
    match t
    case Cron(slots) => forall i :: MinuteApart(slots, i)
    case Interval(seconds) => 5 <= seconds     // MIN_INTERVAL_SECONDS
  }

  // The index of the first slot after `at`, searching up or down from i.
  function SearchUp(slots: int -> Instant, at: Instant, i: int): (r: int)
    requires WellFormed(Cron(slots)) && slots(i - 1) <= at
    ensures slots(r - 1) <= at < slots(r)
    decreases at - slots(i - 1)
  {
    if at < slots(i) then i else
      assert MinuteApart(slots, i - 1);
      SearchUp(slots, at, i + 1)
  }

  function SearchDown(slots: int -> Instant, at: Instant, i: int): (r: int)
    requires WellFormed(Cron(slots)) && at < slots(i)
    ensures slots(r - 1) <= at < slots(r)
    decreases slots(i) - at
  {
    if slots(i - 1) <= at then i else
      assert MinuteApart(slots, i - 1);
      SearchDown(slots, at, i - 1)
  }

  function IndexAfter(slots: int -> Instant, at: Instant): (r: int)
    requires WellFormed(Cron(slots))
    ensures slots(r - 1) <= at < slots(r)
  {
    if at < slots(0) then SearchDown(slots, at, 0) else SearchUp(slots, at, 1)
  }

  // croniter's get_next: the first slot strictly after; get_prev: the last one strictly before.
  function NextFire(slots: int -> Instant, after: Instant): Instant
    requires WellFormed(Cron(slots))
  {
    slots(IndexAfter(slots, after))
  }

  function PrevFire(slots: int -> Instant, before: Instant): Instant
    requires WellFormed(Cron(slots))
  {
    slots(IndexAfter(slots, before - 1) - 1)
  }

  function NextFireTrigger(t: Trigger, after: Instant): Instant
    requires WellFormed(t)
  {
    match t
    case Cron(slots) => NextFire(slots, after)
    case Interval(seconds) => after + Seconds(seconds)
  }

  function LatestSlot(t: Trigger, firstDue: Instant, now: Instant): Instant
    requires WellFormed(t)
  {
    if firstDue >= now then firstDue
    else match t
      case Cron(slots) => Max(firstDue, PrevFire(slots, now + SECOND))
      case Interval(seconds) => firstDue + (now - firstDue) / Seconds(seconds) * Seconds(seconds)
  }

  // ---- what the slot is ----

  lemma {:induction false} SlotsIncrease(slots: int -> Instant, i: int, j: int)
    requires WellFormed(Cron(slots)) && i <= j
    ensures slots(i) + (j - i) * 60 * SECOND <= slots(j)
    decreases j - i
  {
    if i < j {
      SlotsIncrease(slots, i, j - 1);
      assert MinuteApart(slots, j - 1);
    }
  }

  // The m-th instant a whole number of intervals after firstDue.
  function Nth(firstDue: Instant, seconds: nat, m: nat): Instant { firstDue + m * Seconds(seconds) }

  // Whether an instant is one of the trigger's slots, the oldest unclaimed one being `firstDue`.
  ghost predicate IsSlot(t: Trigger, firstDue: Instant, at: Instant) {
    match t
    case Cron(slots) => exists i {:trigger slots(i)} :: slots(i) == at
    case Interval(seconds) => exists m: nat :: Nth(firstDue, seconds, m) == at
  }

  // An interval's slot is the greatest instant due by now that is a whole number of intervals after firstDue.
  lemma IntervalSlotIsLatest(seconds: nat, firstDue: Instant, now: Instant, other: Instant)
    requires 5 <= seconds && firstDue <= now
    ensures var slot := LatestSlot(Interval(seconds), firstDue, now);
            && IsSlot(Interval(seconds), firstDue, slot) && slot <= now < slot + Seconds(seconds)
            && (IsSlot(Interval(seconds), firstDue, other) && other <= now ==> other <= slot)
  {
    var q := WholeIntervals(seconds, firstDue, now);
    hide LatestSlot, Nth;
    if IsSlot(Interval(seconds), firstDue, other) && other <= now {
      var m: nat :| Nth(firstDue, seconds, m) == other;
      if m > q { NthMonotone(firstDue, seconds, q + 1, m); }
    }
  }

  lemma WholeIntervals(seconds: nat, firstDue: Instant, now: Instant) returns (q: nat)
    requires 5 <= seconds && firstDue <= now
    ensures LatestSlot(Interval(seconds), firstDue, now) == Nth(firstDue, seconds, q)
    ensures Nth(firstDue, seconds, q) <= now < Nth(firstDue, seconds, q + 1) == Nth(firstDue, seconds, q) + Seconds(seconds)
  {
    var step, d := Seconds(seconds), now - firstDue;
    Division(d, step);
    q := d / step;
    NextWhole(q, step);
  }

  lemma NextWhole(q: nat, step: int)
    ensures (q + 1) * step == q * step + step
  {
  }

  lemma Division(d: int, step: int)
    requires 0 <= d && 0 < step
    ensures 0 <= d / step && d / step * step <= d < (d / step + 1) * step
  {
  }

  lemma NthMonotone(firstDue: Instant, seconds: nat, a: nat, b: nat)
    requires a <= b
    ensures Nth(firstDue, seconds, a) <= Nth(firstDue, seconds, b)
  {
  }

  // A slot lies less than a second ahead.
  ghost predicate SlotAhead(slots: int -> Instant, at: Instant) {
    exists i {:trigger slots(i)} :: at < slots(i) < at + SECOND
  }

  lemma IndexIsUnique(slots: int -> Instant, at: Instant, i: int, j: int)
    requires WellFormed(Cron(slots)) && slots(i - 1) <= at < slots(i) && slots(j - 1) <= at < slots(j)
    ensures i == j
  {
    if i < j { SlotsIncrease(slots, i, j - 1); }
    if j < i { SlotsIncrease(slots, j, i - 1); }
  }

  // The next slot after now is the only one that can be less than a second ahead.
  lemma SlotAheadIff(slots: int -> Instant, now: Instant)
    requires WellFormed(Cron(slots))
    ensures SlotAhead(slots, now) <==> NextFire(slots, now) < now + SECOND
  {
    var n := IndexAfter(slots, now);
    hide IndexAfter, WellFormed;
    if SlotAhead(slots, now) {
      var j :| now < slots(j) < now + SECOND;
      if j < n { SlotsIncrease(slots, j, n - 1); } else { SlotsIncrease(slots, n, j); }
    }
  }

  // The last slot before now + 1 s is that one, or else the last one due.
  lemma PrevFireIs(slots: int -> Instant, now: Instant)
    requires WellFormed(Cron(slots))
    ensures var n := IndexAfter(slots, now);
            PrevFire(slots, now + SECOND) == slots(if slots(n) < now + SECOND then n else n - 1)
  {
    var n, k := IndexAfter(slots, now), IndexAfter(slots, now + SECOND - 1);
    assert MinuteApart(slots, n);
    hide IndexAfter, WellFormed;
    IndexIsUnique(slots, now + SECOND - 1, k, if slots(n) < now + SECOND then n + 1 else n);
  }

  lemma AtLeastFirst(slots: int -> Instant, firstDue: Instant, now: Instant)
    requires WellFormed(Cron(slots)) && firstDue <= now && IsSlot(Cron(slots), firstDue, firstDue)
    ensures firstDue <= slots(IndexAfter(slots, now) - 1)
  {
    var n := IndexAfter(slots, now);
    var i :| slots(i) == firstDue;
    hide IndexAfter, WellFormed;
    if i < n { SlotsIncrease(slots, i, n - 1); } else { SlotsIncrease(slots, n, i); }
  }

  // A cron slot is the last one before now + 1 s; so it is due by now exactly when none falls in between.
  lemma CronSlotIsDueIff(slots: int -> Instant, firstDue: Instant, now: Instant)
    requires WellFormed(Cron(slots)) && firstDue < now && IsSlot(Cron(slots), firstDue, firstDue)
    ensures var slot := LatestSlot(Cron(slots), firstDue, now);
            && IsSlot(Cron(slots), firstDue, slot) && firstDue <= slot
            && (slot <= now <==> !SlotAhead(slots, now))
            && (slot <= now ==> slot == slots(IndexAfter(slots, now) - 1))
            && (slot > now ==> slot == NextFire(slots, now))
  {
    SlotAheadIff(slots, now);
    PrevFireIs(slots, now);
    AtLeastFirst(slots, firstDue, now);
    hide IndexAfter, WellFormed, SlotAhead, PrevFire;
  }

  lemma WholeSeconds(a: Instant, b: Instant)
    requires a % SECOND == 0 && b % SECOND == 0
    ensures !(b < a < b + SECOND)
  {
  }

  // With now and the slots on whole seconds nothing falls in between, and the slot is the greatest one due.
  lemma CronSlotInWholeSeconds(slots: int -> Instant, firstDue: Instant, now: Instant)
    requires WellFormed(Cron(slots)) && firstDue < now && IsSlot(Cron(slots), firstDue, firstDue)
    requires now % SECOND == 0 && forall i {:trigger slots(i)} :: slots(i) % SECOND == 0
    ensures LatestSlot(Cron(slots), firstDue, now) == slots(IndexAfter(slots, now) - 1) <= now
  {
    CronSlotIsDueIff(slots, firstDue, now);
    forall i ensures !(now < slots(i) < now + SECOND) {
      WholeSeconds(slots(i), now);
    }
    assert !SlotAhead(slots, now);
    hide *;
  }

  // ---- successive claims of one pipeline ----

  // next_run_at after the first k claims, made at now[0], ..., now[k-1].
  function NextRunAt(t: Trigger, first: Instant, nows: seq<Instant>, k: nat): Instant
    requires WellFormed(t) && k <= |nows|
  {
    if k == 0 then first else NextFireTrigger(t, nows[k - 1])
  }

  // A claim happens only when next_run_at has come; the clock need not be monotone otherwise.
  ghost predicate Claims(t: Trigger, first: Instant, nows: seq<Instant>)
    requires WellFormed(t)
  {
    IsSlot(t, first, first) && forall k :: 0 <= k < |nows| ==> NextRunAt(t, first, nows, k) <= nows[k]
  }

  // The slot recorded with the run of claim k.
  function ScheduledFor(t: Trigger, first: Instant, nows: seq<Instant>, k: nat): Instant
    requires WellFormed(t) && k < |nows|
  {
    LatestSlot(t, NextRunAt(t, first, nows, k), nows[k])
  }

  lemma ClaimMovesPastNow(t: Trigger, now: Instant)
    requires WellFormed(t)
    ensures now < NextFireTrigger(t, now)
  {
  }

  // The instants a trigger fires at after a claim: cron's own slots, or whole intervals counted from the claim.
  ghost predicate FiresAt(t: Trigger, claimed: Instant, at: Instant) {
    match t
    case Cron(slots) => claimed < at && exists i {:trigger slots(i)} :: slots(i) == at
    case Interval(seconds) => exists m: nat {:trigger Nth(claimed, seconds, m)} :: m >= 1 && at == Nth(claimed, seconds, m)
  }

  // The next fire is one of these, after the claim, and the first of them: no slot is skipped.
  lemma NextFireIsTheNext(t: Trigger, now: Instant, other: Instant)
    requires WellFormed(t)
    ensures FiresAt(t, now, NextFireTrigger(t, now)) && now < NextFireTrigger(t, now)
    ensures FiresAt(t, now, other) ==> NextFireTrigger(t, now) <= other
  {
    match t
    case Cron(slots) =>
      var n := IndexAfter(slots, now);
      hide IndexAfter, WellFormed;
      if FiresAt(t, now, other) {
        var i :| slots(i) == other;
        if i < n { SlotsIncrease(slots, i, n - 1); } else { SlotsIncrease(slots, n, i); }
      }
    case Interval(seconds) =>
      assert Nth(now, seconds, 1) == NextFireTrigger(t, now);
      if FiresAt(t, now, other) {
        var m: nat :| m >= 1 && other == Nth(now, seconds, m);
        NthMonotone(now, seconds, 1, m);
      }
  }

  // Over successive claims: between a claim and the next_run_at it leaves lies no instant the trigger fires at.
  lemma NoSlotIsSkipped(t: Trigger, first: Instant, nows: seq<Instant>, k: nat, other: Instant)
    requires WellFormed(t) && Claims(t, first, nows) && k < |nows|
    ensures var next := NextRunAt(t, first, nows, k + 1);
            FiresAt(t, nows[k], next) && (FiresAt(t, nows[k], other) ==> next <= other)
  {
    NextFireIsTheNext(t, nows[k], other);
  }

  // An interval keeps its pace: when no claim is made more than `late` after it was due, the k-th next_run_at is at
  // most k intervals and k delays after the first.
  lemma {:induction false} IntervalKeepsPace(seconds: nat, first: Instant, nows: seq<Instant>, k: nat, late: nat)
    requires 5 <= seconds && Claims(Interval(seconds), first, nows) && k <= |nows|
    requires forall i :: 0 <= i < |nows| ==> nows[i] <= NextRunAt(Interval(seconds), first, nows, i) + late
    ensures NextRunAt(Interval(seconds), first, nows, k) <= first + k * (seconds * SECOND + late)
  {
    if k > 0 {
      IntervalKeepsPace(seconds, first, nows, k - 1, late);
      var pace := seconds * SECOND + late;
      assert k * pace == (k - 1) * pace + pace;
    }
  }

  lemma SlotAtLeastFirst(t: Trigger, firstDue: Instant, now: Instant)
    requires WellFormed(t) && firstDue <= now && IsSlot(t, firstDue, firstDue)
    ensures firstDue <= LatestSlot(t, firstDue, now)
  {
    if t.Interval? { IntervalSlotIsLatest(t.seconds, firstDue, now, firstDue); }
  }

  lemma NextIsSlot(t: Trigger, first: Instant, nows: seq<Instant>, k: nat)
    requires WellFormed(t) && Claims(t, first, nows) && k <= |nows|
    ensures var at := NextRunAt(t, first, nows, k); IsSlot(t, at, at)
  {
    if t.Interval? {
      assert Nth(NextRunAt(t, first, nows, k), t.seconds, 0) == NextRunAt(t, first, nows, k);
    } else if k > 0 {
      assert NextRunAt(t, first, nows, k) == t.slots(IndexAfter(t.slots, nows[k - 1]));
    }
  }

  // A claim's slot is later than the previous one's whenever that one was due at its own claim.
  lemma SlotAdvances(t: Trigger, first: Instant, nows: seq<Instant>, k: nat)
    requires WellFormed(t) && Claims(t, first, nows) && k + 1 < |nows|
    requires ScheduledFor(t, first, nows, k) <= nows[k]
    ensures ScheduledFor(t, first, nows, k) < ScheduledFor(t, first, nows, k + 1)
  {
    NextIsSlot(t, first, nows, k + 1);
    ClaimMovesPastNow(t, nows[k]);
    SlotAtLeastFirst(t, NextRunAt(t, first, nows, k + 1), nows[k + 1]);
  }

  lemma {:induction false} SlotsAdvance(t: Trigger, first: Instant, nows: seq<Instant>, i: nat, j: nat)
    requires WellFormed(t) && Claims(t, first, nows) && i < j < |nows|
    requires forall k :: 0 <= k < |nows| ==> ScheduledFor(t, first, nows, k) <= nows[k]
    ensures ScheduledFor(t, first, nows, i) < ScheduledFor(t, first, nows, j)
    decreases j
  {
    hide ScheduledFor, Claims, WellFormed;
    SlotAdvances(t, first, nows, j - 1);
    if i < j - 1 { SlotsAdvance(t, first, nows, i, j - 1); }
  }

  // Slots of an interval coalesce and never repeat: over all claims scheduled_for strictly increases.
  lemma IntervalSlotsNeverRepeat(seconds: nat, first: Instant, nows: seq<Instant>, i: nat, j: nat)
    requires 5 <= seconds && Claims(Interval(seconds), first, nows) && i < j < |nows|
    ensures ScheduledFor(Interval(seconds), first, nows, i) < ScheduledFor(Interval(seconds), first, nows, j)
  {
    var t := Interval(seconds);
    forall k | 0 <= k < |nows| ensures ScheduledFor(t, first, nows, k) <= nows[k] {
      IntervalSlotIsLatest(seconds, NextRunAt(t, first, nows, k), nows[k], first);
    }
    SlotsAdvance(t, first, nows, i, j);
  }

  // The same for cron with whole-second clock readings.
  lemma CronSlotsNeverRepeat(slots: int -> Instant, first: Instant, nows: seq<Instant>, i: nat, j: nat)
    requires WellFormed(Cron(slots)) && Claims(Cron(slots), first, nows) && i < j < |nows|
    requires forall n {:trigger slots(n)} :: slots(n) % SECOND == 0
    requires forall k :: 0 <= k < |nows| ==> nows[k] % SECOND == 0
    ensures ScheduledFor(Cron(slots), first, nows, i) < ScheduledFor(Cron(slots), first, nows, j)
  {
    var t := Cron(slots);
    forall k | 0 <= k < |nows| ensures ScheduledFor(t, first, nows, k) <= nows[k] {
      NextIsSlot(t, first, nows, k);
      if NextRunAt(t, first, nows, k) < nows[k] {
        CronSlotInWholeSeconds(slots, NextRunAt(t, first, nows, k), nows[k]);
      }
    }
    SlotsAdvance(t, first, nows, i, j);
  }

  // Claim k overshot to a slot less than a second ahead, and the next claim came more than a second before the
  // slot after that one.
  ghost predicate Overshoots(slots: int -> Instant, first: Instant, nows: seq<Instant>, k: nat)
    requires WellFormed(Cron(slots)) && k + 1 < |nows|
  {
    && SlotAhead(slots, nows[k]) && NextRunAt(Cron(slots), first, nows, k) < nows[k]
    && nows[k + 1] + SECOND <= slots(IndexAfter(slots, nows[k]) + 1)
  }

  // With fractions of a second two claims of a cron trigger in a row have the same slot exactly then.
  lemma CronSlotRepeatsIff(slots: int -> Instant, first: Instant, nows: seq<Instant>, k: nat)
    requires WellFormed(Cron(slots)) && Claims(Cron(slots), first, nows) && k + 1 < |nows|
    ensures var t := Cron(slots);
            ScheduledFor(t, first, nows, k + 1) == ScheduledFor(t, first, nows, k) <==> Overshoots(slots, first, nows, k)
  {
    WhatWasClaimed(slots, first, nows, k);
    hide ScheduledFor, WellFormed, IsSlot, SlotAhead;
    if ScheduledFor(Cron(slots), first, nows, k) <= nows[k] {
      SlotAdvances(Cron(slots), first, nows, k);
    } else {
      NextSlotIs(slots, first, nows, k);
    }
  }

  // One claim's slot is due at it, or it is the next one after it, less than a second ahead.
  lemma SlotOrAhead(slots: int -> Instant, a: Instant, now: Instant)
    requires WellFormed(Cron(slots)) && a <= now && IsSlot(Cron(slots), a, a)
    ensures var slot, ahead := LatestSlot(Cron(slots), a, now), a < now && SlotAhead(slots, now);
            (slot <= now <==> !ahead) && (ahead ==> slot == slots(IndexAfter(slots, now)))
  {
    if a < now { CronSlotIsDueIff(slots, a, now); }
  }

  lemma WhatWasClaimed(slots: int -> Instant, first: Instant, nows: seq<Instant>, k: nat)
    requires WellFormed(Cron(slots)) && Claims(Cron(slots), first, nows) && k < |nows|
    ensures var slot := ScheduledFor(Cron(slots), first, nows, k);
            var ahead := NextRunAt(Cron(slots), first, nows, k) < nows[k] && SlotAhead(slots, nows[k]);
            (slot <= nows[k] <==> !ahead) && (ahead ==> slot == slots(IndexAfter(slots, nows[k])))
  {
    hide WellFormed, IsSlot, SlotAhead, LatestSlot;
    NextIsSlot(Cron(slots), first, nows, k);
    SlotOrAhead(slots, NextRunAt(Cron(slots), first, nows, k), nows[k]);
  }

  lemma NextIsNextFire(slots: int -> Instant, first: Instant, nows: seq<Instant>, k: nat)
    requires WellFormed(Cron(slots)) && Claims(Cron(slots), first, nows) && k + 1 < |nows|
    ensures NextRunAt(Cron(slots), first, nows, k + 1) == slots(IndexAfter(slots, nows[k])) <= nows[k + 1]
  {
    hide WellFormed, IndexAfter, IsSlot;
  }

  lemma NextSlotIs(slots: int -> Instant, first: Instant, nows: seq<Instant>, k: nat)
    requires WellFormed(Cron(slots)) && Claims(Cron(slots), first, nows) && k + 1 < |nows|
    ensures var n := IndexAfter(slots, nows[k]);
            ScheduledFor(Cron(slots), first, nows, k + 1) == slots(n) <==> nows[k + 1] + SECOND <= slots(n + 1)
  {
    hide WellFormed, LatestSlot, IndexAfter, IsSlot;
    NextIsNextFire(slots, first, nows, k);
    SameSlotIff(slots, IndexAfter(slots, nows[k]), nows[k + 1]);
    hide Claims, NextRunAt;
  }

  // A claim due at slot n is for that slot exactly when the next one is at least a second away.
  lemma SameSlotIff(slots: int -> Instant, n: int, at: Instant)
    requires WellFormed(Cron(slots)) && slots(n) <= at
    ensures LatestSlot(Cron(slots), slots(n), at) == slots(n) <==> at + SECOND <= slots(n + 1)
  {
    assert MinuteApart(slots, n);
    if slots(n) < at {
      var m := IndexAfter(slots, at + SECOND - 1);
      assert slots(m - 1) == PrevFire(slots, at + SECOND);
      if at + SECOND <= slots(n + 1) {
        if n + 1 < m { SlotsIncrease(slots, n + 1, m - 1); }
        SlotsIncrease(slots, m - 1, n);
      } else {
        if m < n + 2 { SlotsIncrease(slots, m, n + 1); }
        SlotsIncrease(slots, n + 1, m - 1);
      }
    }
  }

  // A claim never goes back to an earlier slot, whatever the trigger and the clock readings.
  lemma SlotNeverGoesBack(t: Trigger, first: Instant, nows: seq<Instant>, k: nat)
    requires WellFormed(t) && Claims(t, first, nows) && k + 1 < |nows|
    ensures ScheduledFor(t, first, nows, k) <= ScheduledFor(t, first, nows, k + 1)
  {
    if ScheduledFor(t, first, nows, k) <= nows[k] {
      SlotAdvances(t, first, nows, k);
    } else {
      var a := NextRunAt(t, first, nows, k);
      NextIsSlot(t, first, nows, k);
      NextIsSlot(t, first, nows, k + 1);
      SlotAtLeastFirst(t, NextRunAt(t, first, nows, k + 1), nows[k + 1]);
      if t.Interval? {
        IntervalSlotIsLatest(t.seconds, a, nows[k], a);
      } else if a < nows[k] {
        CronSlotIsDueIff(t.slots, a, nows[k]);
      }
    }
  }

  lemma {:induction false} SlotsNeverGoBack(t: Trigger, first: Instant, nows: seq<Instant>, i: nat, j: nat)
    requires WellFormed(t) && Claims(t, first, nows) && i <= j < |nows|
    ensures ScheduledFor(t, first, nows, i) <= ScheduledFor(t, first, nows, j)
    decreases j
  {
    hide ScheduledFor, Claims, WellFormed;
    if i < j {
      SlotsNeverGoBack(t, first, nows, i, j - 1);
      SlotNeverGoesBack(t, first, nows, j - 1);
    }
  }

  // Whatever the clock readings, the slots of a cron trigger strictly increase over all its claims exactly when
  // no claim of it overshoots.
  lemma CronSlotsIncreaseIff(slots: int -> Instant, first: Instant, nows: seq<Instant>)
    requires WellFormed(Cron(slots)) && Claims(Cron(slots), first, nows)
    ensures (forall i, j :: 0 <= i < j < |nows| ==> ScheduledFor(Cron(slots), first, nows, i) < ScheduledFor(Cron(slots), first, nows, j))
        <==> (forall k :: 0 <= k < |nows| - 1 ==> !Overshoots(slots, first, nows, k))
  {
    var t := Cron(slots);
    hide ScheduledFor, Claims, WellFormed, Overshoots;
    if forall k :: 0 <= k < |nows| - 1 ==> !Overshoots(slots, first, nows, k) {
      forall i, j | 0 <= i < j < |nows| ensures ScheduledFor(t, first, nows, i) < ScheduledFor(t, first, nows, j) {
        SlotsNeverGoBack(t, first, nows, i, j - 1);
        CronSlotRepeatsIff(slots, first, nows, j - 1);
        SlotNeverGoesBack(t, first, nows, j - 1);
      }
    } else {
      var k :| 0 <= k < |nows| - 1 && Overshoots(slots, first, nows, k);
      CronSlotRepeatsIff(slots, first, nows, k);
      assert !(ScheduledFor(t, first, nows, k) < ScheduledFor(t, first, nows, k + 1));
    }
  }

  // A slot every minute, claimed at 59.5 s and at 60.1 s: both runs are recorded for second 60.
  lemma OvershootRepeatsSlot()
    ensures var slots, nows := (i: int) => i * 60 * SECOND, [59_500_000, 60_100_000];
            && WellFormed(Cron(slots)) && Claims(Cron(slots), 0, nows) && Overshoots(slots, 0, nows, 0)
            && ScheduledFor(Cron(slots), 0, nows, 0) == ScheduledFor(Cron(slots), 0, nows, 1) == 60 * SECOND
  {
    var slots, nows := (i: int) => i * 60 * SECOND, [59_500_000, 60_100_000];
    var t := Cron(slots);
    assert WellFormed(t);
    assert slots(0) == 0 && slots(1) == 60 * SECOND && slots(2) == 120 * SECOND;
    assert IndexAfter(slots, nows[0]) == 1 && IndexAfter(slots, nows[1]) == 2;
    assert IndexAfter(slots, nows[0] + SECOND - 1) == 2 && IndexAfter(slots, nows[1] + SECOND - 1) == 2;
    assert NextRunAt(t, 0, nows, 1) == 60 * SECOND;
  }

  // ---- the claim ----

  // A pipeline's schedule (None when it has none or it is disabled) and its next_run_at.
  datatype Scheduled = Scheduled(schedule: Option<Trigger>, nextRunAt: Option<Instant>)

  ghost predicate AllWellFormed(pipelines: map<string, Scheduled>) {
    forall pid :: pid in pipelines && pipelines[pid].schedule.Some? ==> WellFormed(pipelines[pid].schedule.value)
  }

  predicate IsDue(p: Scheduled, now: Instant) { p.schedule.Some? && p.nextRunAt.Some? && p.nextRunAt.value <= now }

  // What a claim leaves: the next fire after `now`, however many slots were missed.
  function Advanced(p: Scheduled, now: Instant): Scheduled
    requires IsDue(p, now) && WellFormed(p.schedule.value)
  {
    p.(nextRunAt := Some(NextFireTrigger(p.schedule.value, now)))
  }

  // A batch: the soonest due pipelines, at most `limit`.
  ghost predicate IsBatch(pipelines: map<string, Scheduled>, now: Instant, limit: nat, batch: seq<string>) {
    exists due :: IsAllDue(pipelines, now, due) && batch == Take(due, limit)
  }

  function Times(pipelines: map<string, Scheduled>): map<string, Instant> {
    map pid | pid in pipelines && pipelines[pid].nextRunAt.Some? :: pipelines[pid].nextRunAt.value
  }

  ghost predicate IsAllDue(pipelines: map<string, Scheduled>, now: Instant, due: seq<string>) {
    NoDup(due) && Sorted(ByKey(Times(pipelines)), due) && (forall pid :: pid in due <==> pid in pipelines && IsDue(pipelines[pid], now))
  }

  // Ties of next_run_at are broken by the id, so there is only one batch.
  lemma OneBatch(pipelines: map<string, Scheduled>, now: Instant, limit: nat, a: seq<string>, b: seq<string>)
    requires IsBatch(pipelines, now, limit, a) && IsBatch(pipelines, now, limit, b)
    ensures a == b
  {
    var x :| IsAllDue(pipelines, now, x) && a == Take(x, limit);
    var y :| IsAllDue(pipelines, now, y) && b == Take(y, limit);
    ByKeyIsUnique(Times(pipelines), x, y);
  }

  // A claim takes what is due and nothing else; and as long as the batch has room, all of it.
  lemma BatchTakesTheDue(pipelines: map<string, Scheduled>, now: Instant, limit: nat, batch: seq<string>, pid: string)
    requires IsBatch(pipelines, now, limit, batch) && pid in pipelines
    ensures pid in batch ==> pipelines[pid].schedule.Some? && pipelines[pid].nextRunAt.Some? && pipelines[pid].nextRunAt.value <= now
    ensures |batch| < limit && pipelines[pid].schedule.Some? && pipelines[pid].nextRunAt.Some? && pipelines[pid].nextRunAt.value <= now ==>
              pid in batch
  {
    var due :| IsAllDue(pipelines, now, due) && batch == Take(due, limit);
    assert |batch| < limit ==> batch == due;
    assert forall x :: x in batch ==> x in due;
  }

  lemma AdvancedIsNotDue(p: Scheduled, now: Instant)
    requires IsDue(p, now) && WellFormed(p.schedule.value)
    ensures !IsDue(Advanced(p, now), now)
  {
    ClaimMovesPastNow(p.schedule.value, now);
  }

  // The claims of a batch: each pipeline as it was, and the rows as the claim leaves them.
  method AdvanceEach(pipelines: map<string, Scheduled>, now: Instant, batch: seq<string>)
    returns (out: seq<(string, Scheduled)>, rows: map<string, Scheduled>)
    requires AllWellFormed(pipelines) && NoDup(batch)
    requires forall pid :: pid in batch ==> pid in pipelines && IsDue(pipelines[pid], now)
    ensures |out| == |batch| && forall i :: 0 <= i < |out| ==> batch[i] in batch && out[i] == (batch[i], pipelines[batch[i]])
    ensures rows == map pid | pid in batch :: Advanced(pipelines[pid], now)
  {
    out, rows := [], map[];
    var i := 0;
    while i < |batch|
      invariant 0 <= i <= |batch| && |out| == i
      invariant forall k :: 0 <= k < i ==> batch[k] in batch && out[k] == (batch[k], pipelines[batch[k]])
      invariant forall pid :: pid in rows <==> pid in batch[..i]
      invariant forall pid :: pid in rows ==> pid in batch && rows[pid] == Advanced(pipelines[pid], now)
    {
      var pid := batch[i];
      assert pid in batch && batch[..i + 1] == batch[..i] + [pid];
      out := out + [(pid, pipelines[pid])];
      rows := rows[pid := Advanced(pipelines[pid], now)];
      i := i + 1;
    }
    assert batch[..i] == batch;
  }

  class ScheduleStore {
    var pipelines: map<string, Scheduled>

    constructor (pipelines: map<string, Scheduled>)
      ensures this.pipelines == pipelines
    {
      this.pipelines := pipelines;
    }

    // The soonest due pipelines, each as it was before the claim moved its next_run_at past now.
    method ClaimDuePipelines(now: Instant, limit: nat) returns (out: seq<(string, Scheduled)>, ghost batch: seq<string>)
      requires AllWellFormed(pipelines)
      modifies this
      ensures IsBatch(old(pipelines), now, limit, batch)
      ensures forall pid :: pid in batch ==> pid in old(pipelines) && IsDue(old(pipelines)[pid], now)
      ensures |out| == |batch| && forall i :: 0 <= i < |out| ==> batch[i] in batch && out[i] == (batch[i], old(pipelines)[batch[i]])
      ensures pipelines == old(pipelines) + map pid | pid in batch :: Advanced(old(pipelines)[pid], now)
      ensures forall pid :: pid in batch ==> !IsDue(pipelines[pid], now)
    {
      var due := SortIds(Times(pipelines), set pid | pid in pipelines && IsDue(pipelines[pid], now));
      var claims := Take(due, limit);
      assert forall pid :: pid in claims ==> pid in due;
      var fires, rows := AdvanceEach(pipelines, now, claims);
      forall pid | pid in claims ensures !IsDue(Advanced(pipelines[pid], now), now) {
        AdvancedIsNotDue(pipelines[pid], now);
      }
      assert IsAllDue(pipelines, now, due);
      pipelines, out, batch := pipelines + rows, fires, claims;
    }
  }
}
