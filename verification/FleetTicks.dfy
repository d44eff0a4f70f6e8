// Why the ticks of a run keep the bounds of FleetDelays: between two ticks no timer is ahead of
// the clock, and a tick moves each timer only when it does what the timer is for.
module FleetTicks {
  import opened Options
  import opened FleetTrace
  import opened FleetWatch
  import opened FleetDelays

  // The observer between two ticks.
  datatype Rest = Rest(snap: Snapshot, clock: int)

  ghost predicate Sound(r: Rest) {
    && Agree(r.snap.table, r.snap.polling.fastCount, r.snap.seed, r.clock, r.snap.record)
    && Steady(r.snap.seed, r.snap.record) && r.snap.record.due.None?
    && (r.snap.seed.pending ==> AtRest(r.snap.polling))
  }

  // No timer is ahead of the time of the latest tick.
  predicate TimersBehind(r: Rest, now: int) {
    match r.snap.record.phase
    case Live => r.snap.polling.lastManagerProbe <= now && r.snap.polling.lastFastPoll <= now
    case Dormant => r.snap.polling.lastManagerDiscovery <= now
    case Seeding => r.snap.seed.lastAttempt <= now
  }

  // What one tick does to the observer.
  ghost predicate Ticked(was: Snapshot, tick: TickSpan, left: Snapshot) {
    && left.record.ticks == was.record.ticks + 1 && AllWanted(was.table, tick.subscriptions)
    && if was.seed.pending then
         && SeedingProgress(was.seed, was.table, left.seed, left.table, left.record, tick.service, tick.subscriptions, tick.now)
         && SeedPace(was.seed, was.table, left.seed, left.polling, left.table, left.record, tick.service, tick.now)
       else
         && LiveProgress(was.seed, was.polling, was.table, left.seed, left.table, tick.service, tick.subscriptions, tick.now)
         && LivePace(was.seed, was.polling, was.table, left.seed, left.polling, left.table, tick.service,
                     tick.subscriptions, tick.now)
  }

  function TimeOf(ticks: seq<TickSpan>, n: nat): int
    requires n <= |ticks|
  {
    if n == 0 then 0 else ticks[n - 1].now
  }

  // The observer before tick j, after the ticks before it.
  ghost predicate Rested(ticks: seq<TickSpan>, rests: seq<Rest>, j: nat) {
    j < |rests| && j <= |ticks| && Sound(rests[j]) && TimersBehind(rests[j], TimeOf(ticks, j))
  }

  predicate Timed(ticks: seq<TickSpan>, rests: seq<Rest>, j: nat) {
    j < |ticks| && j + 1 < |rests| && rests[j].clock <= ticks[j].now <= rests[j + 1].clock
  }

  // The part of the trace that tick j produced, and the record of it.
  ghost predicate Placed(t: seq<Event>, run: seq<Monitor>, ticks: seq<TickSpan>, rests: seq<Rest>, j: nat) {
    && j < |ticks| && j + 1 < |rests| && ticks[j].from <= ticks[j].to <= |t| && |run| == |t| + 1
    && if ticks[j].subscriptions == [] then ticks[j].to == 0 else
       && ticks[j].from < ticks[j].to
       && t[ticks[j].from] == TickStart(ticks[j].now, ticks[j].service)
       && run[ticks[j].from] == rests[j].snap.record && run[ticks[j].to] == rests[j + 1].snap.record
  }

  ghost predicate Stepped(ticks: seq<TickSpan>, rests: seq<Rest>, j: nat) {
    && j < |ticks| && j + 1 < |rests|
    && (ticks[j].from < ticks[j].to ==> Ticked(rests[j].snap, ticks[j], rests[j + 1].snap))
  }

  ghost predicate Follow(ticks: seq<TickSpan>, j: nat, k: nat) {
    && j < k < |ticks| && ticks[j].to <= ticks[k].from && ticks[j].subscriptions <= ticks[k].subscriptions
    && (k == j + 1 && ticks[j].to > 0 ==> ticks[k].from == ticks[j].to)
  }

  ghost predicate Log(t: seq<Event>, run: seq<Monitor>, ticks: seq<TickSpan>, rests: seq<Rest>) {
    && Accepts(t, run) && |rests| == |ticks| + 1
    && (forall j :: 0 <= j <= |ticks| ==> Rested(ticks, rests, j))
    && (forall j :: 0 <= j < |ticks| ==> Timed(ticks, rests, j))
    && (forall j :: 0 <= j < |ticks| ==> Placed(t, run, ticks, rests, j))
    && (forall j :: 0 <= j < |ticks| ==> Stepped(ticks, rests, j))
    && (forall j, k :: 0 <= j < k < |ticks| ==> Follow(ticks, j, k))
  }

  // ---- The clock ----

  lemma {:induction false} ClockRises(t: seq<Event>, run: seq<Monitor>, ticks: seq<TickSpan>, rests: seq<Rest>, j: nat, k: nat)
    requires Log(t, run, ticks, rests) && j <= k < |rests|
    ensures rests[j].clock <= rests[k].clock
  {
    if j < k {
      ClockRises(t, run, ticks, rests, j, k - 1);
      assert Timed(ticks, rests, k - 1);
    }
  }

  // The times of ticks do not decrease, and lie between the clock readings around them.
  lemma TimesRise(t: seq<Event>, run: seq<Monitor>, ticks: seq<TickSpan>, rests: seq<Rest>, j: nat, k: nat)
    requires Log(t, run, ticks, rests) && j < k < |ticks|
    ensures ticks[j].now <= rests[j + 1].clock <= ticks[k].now
  {
    ClockRises(t, run, ticks, rests, j + 1, k);
    assert Timed(ticks, rests, j) && Timed(ticks, rests, k);
  }

  // ---- Events between two positions ----

  lemma {:induction false} BaselineBetween(t: seq<Event>, run: seq<Monitor>, lo: nat, hi: nat)
    requires Accepts(t, run) && lo <= hi <= |t| && run[lo].phase != Live && run[hi].phase == Live
    ensures BaselineWithin(t, lo, hi)
  {
    if lo < hi {
      assert Allowed(run[hi - 1], t[hi - 1]) && run[hi] == Step(run[hi - 1], t[hi - 1]);
      if run[hi - 1].phase == Live {
        BaselineBetween(t, run, lo, hi - 1);
      }
    }
  }

  lemma {:induction false} GaveUpBetween(t: seq<Event>, run: seq<Monitor>, lo: nat, hi: nat)
    requires Accepts(t, run) && lo <= hi <= |t| && run[lo].phase != Dormant && run[hi].phase == Dormant
    ensures GaveUpWithin(t, lo, hi)
  {
    if lo < hi {
      assert Allowed(run[hi - 1], t[hi - 1]) && run[hi] == Step(run[hi - 1], t[hi - 1]);
      if run[hi - 1].phase == Dormant {
        GaveUpBetween(t, run, lo, hi - 1);
      }
    }
  }

  lemma {:induction false} ResetBetween(t: seq<Event>, run: seq<Monitor>, lo: nat, hi: nat)
    requires Accepts(t, run) && lo <= hi <= |t| && run[lo].phase != Seeding && run[hi].phase == Seeding
    ensures ResetWithin(t, lo - 1, hi)
  {
    if lo < hi {
      assert Allowed(run[hi - 1], t[hi - 1]) && run[hi] == Step(run[hi - 1], t[hi - 1]);
      if run[hi - 1].phase == Seeding {
        ResetBetween(t, run, lo, hi - 1);
      }
    }
  }

  lemma {:induction false} SeedingSince(t: seq<Event>, run: seq<Monitor>, r: nat, hi: nat)
    requires Accepts(t, run) && r < hi <= |t| && t[r].Reset?
    requires forall k :: r < k < hi ==> !t[k].Baseline? && !t[k].GaveUp?
    ensures run[hi].phase == Seeding
  {
    assert Allowed(run[hi - 1], t[hi - 1]) && run[hi] == Step(run[hi - 1], t[hi - 1]);
    if r < hi - 1 {
      SeedingSince(t, run, r, hi - 1);
    }
  }

  lemma {:induction false} DormantSince(t: seq<Event>, run: seq<Monitor>, p: nat, hi: nat)
    requires Accepts(t, run) && p < hi <= |t| && t[p].GaveUp? && forall k :: p < k < hi ==> !t[k].Reset?
    ensures run[hi].phase == Dormant
  {
    assert Allowed(run[hi - 1], t[hi - 1]) && run[hi] == Step(run[hi - 1], t[hi - 1]);
    if p < hi - 1 {
      DormantSince(t, run, p, hi - 1);
    }
  }

  // ---- Between a baseline and the next reset ----

  // The baseline at b stands at position hi, and what is published since is on record.
  lemma StandingBaseline(t: seq<Event>, run: seq<Monitor>, b: nat, hi: nat)
    requires Accepts(t, run) && b < hi <= |t| && t[b].Baseline? && NoReset(t, b, hi)
    ensures run[hi].phase == Live && PublishedSince(t, b, hi, run[hi].published)
  {
    LiveAfterBaseline(t, run, b, hi);
    var b' := LiveHasBaseline(t, run, hi);
    if b < b' {
      BaselineOncePerReset(t, run, b, b');
    }
  }

  // The baseline at b, announced before tick i was over, stands when tick j is over.
  ghost predicate Standing(t: seq<Event>, ticks: seq<TickSpan>, b: nat, i: nat, j: nat) {
    BaselinedBy(t, ticks, b, i) && i <= j < |ticks| && ticks[j].to <= |t| && NoReset(t, b, ticks[j].to)
  }

  lemma StandingAfter(t: seq<Event>, run: seq<Monitor>, ticks: seq<TickSpan>, rests: seq<Rest>, b: nat, i: nat, j: nat)
    requires Log(t, run, ticks, rests) && Standing(t, ticks, b, i, j)
    ensures ticks[j].from < ticks[j].to && (i < j ==> b < ticks[j].from)
    ensures rests[j + 1].snap.record.phase == Live && PublishedSince(t, b, ticks[j].to, rests[j + 1].snap.record.published)
    ensures i < j ==> rests[j].snap.record.phase == Live
  {
    assert Placed(t, run, ticks, rests, j);
    if i < j {
      assert Follow(ticks, i, j);
      StandingBaseline(t, run, b, ticks[j].from);
    }
    StandingBaseline(t, run, b, ticks[j].to);
  }

  lemma StandingBefore(t: seq<Event>, run: seq<Monitor>, ticks: seq<TickSpan>, rests: seq<Rest>, b: nat, i: nat, j: nat, k: nat)
    requires Log(t, run, ticks, rests) && Standing(t, ticks, b, i, k) && i <= j <= k
    ensures Standing(t, ticks, b, i, j)
  {
    LaterTick(t, run, ticks, rests, j, k);
  }

  // A tick after which the observer is as live as before.
  ghost predicate LiveTick(was: Rest, tick: TickSpan, left: Rest) {
    && Sound(was) && Sound(left) && Ticked(was.snap, tick, left.snap)
    && was.snap.record.phase == Live && left.snap.record.phase == Live
  }

  lemma LiveTicks(t: seq<Event>, run: seq<Monitor>, ticks: seq<TickSpan>, rests: seq<Rest>, b: nat, i: nat, j: nat)
    requires Log(t, run, ticks, rests) && i < j && Standing(t, ticks, b, i, j)
    ensures LiveTick(rests[j], ticks[j], rests[j + 1])
  {
    StandingAfter(t, run, ticks, rests, b, i, j);
    assert Stepped(ticks, rests, j) && Rested(ticks, rests, j) && Rested(ticks, rests, j + 1);
  }

  // What is known at the end of such a tick is what the table then holds.
  lemma ShownAtEnd(t: seq<Event>, run: seq<Monitor>, ticks: seq<TickSpan>, rests: seq<Rest>, b: nat, i: nat, j: nat, slot: Slot)
    requires Log(t, run, ticks, rests) && Standing(t, ticks, b, i, j)
    requires ticks[j].service.available && rests[j + 1].snap.table[slot].Held() == ticks[j].service.fleets[slot]
    ensures Shown(t, ticks, b, j, slot)
  {
    StandingAfter(t, run, ticks, rests, b, i, j);
    assert Rested(ticks, rests, j + 1);
    assert rests[j + 1].snap.record.published[slot] == ViewOf(rests[j + 1].snap.table)[slot];
  }

  // ---- One probe after another ----

  function NextSlot(slot: Slot): Slot {
    (slot + 1) % SLOT_COUNT
  }

  // What a tick does that stays live: it probes, or leaves timer and cursor.
  lemma ProbesOrWaits(was: Rest, tick: TickSpan, left: Rest)
    requires LiveTick(was, tick, left)
    ensures var p, q := was.snap.polling, left.snap.polling;
      if p.lastManagerProbe == 0 || tick.now - p.lastManagerProbe >= 250 then
        && tick.service.available && left.snap.table[p.probeSlot].Held() == tick.service.fleets[p.probeSlot]
        && q.probeSlot == NextSlot(p.probeSlot) && q.lastManagerProbe == tick.now
      else q.probeSlot == p.probeSlot && q.lastManagerProbe == p.lastManagerProbe
  {
  }

  // Tick j looked at a slot and set the timer and the cursor.
  ghost predicate ProbedAt(t: seq<Event>, ticks: seq<TickSpan>, rests: seq<Rest>, b: nat, j: nat, slot: Slot) {
    && Shown(t, ticks, b, j, slot) && j + 1 < |rests|
    && rests[j + 1].snap.polling.probeSlot == NextSlot(slot)
    && rests[j + 1].snap.polling.lastManagerProbe == ticks[j].now
  }

  lemma ProbesNow(t: seq<Event>, run: seq<Monitor>, ticks: seq<TickSpan>, rests: seq<Rest>, b: nat, i: nat, j: nat)
    requires Log(t, run, ticks, rests) && i < j && Standing(t, ticks, b, i, j)
    ensures var p, q := rests[j].snap.polling, rests[j + 1].snap.polling;
      if p.lastManagerProbe == 0 || ticks[j].now - p.lastManagerProbe >= 250 then ProbedAt(t, ticks, rests, b, j, p.probeSlot)
      else q.probeSlot == p.probeSlot && q.lastManagerProbe == p.lastManagerProbe
  {
    LiveTicks(t, run, ticks, rests, b, i, j);
    ProbesOrWaits(rests[j], ticks[j], rests[j + 1]);
    var p := rests[j].snap.polling;
    if p.lastManagerProbe == 0 || ticks[j].now - p.lastManagerProbe >= 250 {
      ShownAtEnd(t, run, ticks, rests, b, i, j, p.probeSlot);
    }
  }

  // By tick c the slot in turn has been probed, if the timer of the probes is old enough.
  lemma {:induction false} NextProbe(t: seq<Event>, run: seq<Monitor>, ticks: seq<TickSpan>, rests: seq<Rest>, b: nat, i: nat,
                                     x: nat, c: nat)
    returns (j: nat)
    requires Log(t, run, ticks, rests) && Standing(t, ticks, b, i, c) && i <= x < c
    requires ticks[c].now - rests[x + 1].snap.polling.lastManagerProbe >= 250
    ensures x < j <= c && ProbedAt(t, ticks, rests, b, j, rests[x + 1].snap.polling.probeSlot)
    decreases c - x
  {
    j := x + 1;
    StandingBefore(t, run, ticks, rests, b, i, j, c);
    ProbesNow(t, run, ticks, rests, b, i, j);
    var p := rests[j].snap.polling;
    if p.lastManagerProbe != 0 && ticks[j].now - p.lastManagerProbe < 250 {
      j := NextProbe(t, run, ticks, rests, b, i, j, c);
    }
  }

  lemma LaterTick(t: seq<Event>, run: seq<Monitor>, ticks: seq<TickSpan>, rests: seq<Rest>, j: nat, k: nat)
    requires Log(t, run, ticks, rests) && j <= k < |ticks|
    ensures ticks[j].to <= ticks[k].to <= |t|
  {
    assert Placed(t, run, ticks, rests, k);
    if j < k {
      assert Follow(ticks, j, k);
    }
  }

  // The slot that is n probes after p.
  function Turn(p: Slot, n: nat): Slot {
    (p + n) % SLOT_COUNT
  }

  lemma TurnNext(p: Slot, n: nat)
    ensures Turn(p, n + 1) == NextSlot(Turn(p, n)) && Turn(p, 0) == p
  {
  }

  lemma {:induction false} KsRise(ticks: seq<TickSpan>, i: nat, ks: seq<nat>, m: nat, n: nat)
    requires TenTicks(ticks, i, ks) && m <= n <= 9
    ensures i < ks[m] <= ks[n]
  {
    if m < n {
      KsRise(ticks, i, ks, m, n - 1);
      assert Gap(ticks, ks[n - 1], ks[n - 1 + 1], 250);
    } else if m > 0 {
      KsRise(ticks, i, ks, m - 1, m - 1);
      assert Gap(ticks, ks[m - 1], ks[m - 1 + 1], 250);
    }
  }

  // The n-th of the ten ticks comes late enough after any tick up to the one before.
  lemma Spacing(t: seq<Event>, run: seq<Monitor>, ticks: seq<TickSpan>, rests: seq<Rest>, i: nat, ks: seq<nat>, n: nat, last: nat)
    requires Log(t, run, ticks, rests) && TenTicks(ticks, i, ks) && n < 10 && last <= if n == 0 then i else ks[n - 1]
    ensures Gap(ticks, last, ks[n], 250)
  {
    var before := if n == 0 then i else ks[n - 1];
    assert n > 0 ==> Gap(ticks, ks[n - 1], ks[n - 1 + 1], 250);
    if last < before {
      TimesRise(t, run, ticks, rests, last, before);
    }
  }

  ghost predicate TurnShown(t: seq<Event>, ticks: seq<TickSpan>, b: nat, x: nat, y: nat, p: Slot, m: nat) {
    ShownWithin(t, ticks, b, x, y, Turn(p, m))
  }

  // After n of the ten ticks, the n slots in turn have been shown.
  lemma {:induction false} ProbesInTurn(t: seq<Event>, run: seq<Monitor>, ticks: seq<TickSpan>, rests: seq<Rest>, b: nat,
                                        i: nat, ks: seq<nat>, p: Slot, n: nat)
    returns (j: nat)
    requires Log(t, run, ticks, rests) && TenTicks(ticks, i, ks) && Standing(t, ticks, b, i, ks[9]) && n <= 10
    requires p == rests[i + 1].snap.polling.probeSlot
    ensures i <= j < |ticks| && j <= if n == 0 then i else ks[n - 1]
    ensures rests[j + 1].snap.polling.probeSlot == Turn(p, n)
    ensures rests[j + 1].snap.polling.lastManagerProbe <= ticks[j].now
    ensures forall m :: 0 <= m < n ==> TurnShown(t, ticks, b, i, ks[9], p, m)
  {
    TurnNext(p, n);
    if n == 0 {
      j := i;
      StandingBefore(t, run, ticks, rests, b, i, i, ks[9]);
      StandingAfter(t, run, ticks, rests, b, i, i);
      assert Rested(ticks, rests, i + 1);
    } else {
      var last := ProbesInTurn(t, run, ticks, rests, b, i, ks, p, n - 1);
      TurnNext(p, n - 1);
      j := TurnTaken(t, run, ticks, rests, b, i, ks, n - 1, last);
      assert Shown(t, ticks, b, j, Turn(p, n - 1));
    }
  }

  lemma TurnTaken(t: seq<Event>, run: seq<Monitor>, ticks: seq<TickSpan>, rests: seq<Rest>, b: nat, i: nat, ks: seq<nat>,
                  n: nat, last: nat)
    returns (j: nat)
    requires Log(t, run, ticks, rests) && TenTicks(ticks, i, ks) && Standing(t, ticks, b, i, ks[9]) && n < 10
    requires i <= last < |ticks| && last <= if n == 0 then i else ks[n - 1]
    requires rests[last + 1].snap.polling.lastManagerProbe <= ticks[last].now
    ensures last < j <= ks[n] <= ks[9] && ProbedAt(t, ticks, rests, b, j, rests[last + 1].snap.polling.probeSlot)
  {
    KsRise(ticks, i, ks, n, 9);
    Spacing(t, run, ticks, rests, i, ks, n, last);
    StandingBefore(t, run, ticks, rests, b, i, ks[n], ks[9]);
    j := NextProbe(t, run, ticks, rests, b, i, last, ks[n]);
  }

  lemma TurnsCover(p: Slot, slot: Slot) returns (m: nat)
    ensures m < 10 && Turn(p, m) == slot
  {
    m := if slot >= p then slot - p else slot - p + SLOT_COUNT;
  }

  lemma EverySlotIsShown(t: seq<Event>, run: seq<Monitor>, ticks: seq<TickSpan>, rests: seq<Rest>, b: nat, i: nat, ks: seq<nat>,
                         slot: Slot)
    requires Log(t, run, ticks, rests) && Watched(t, ticks, b, i, ks) && NoReset(t, b, ticks[ks[9]].to)
    ensures ShownWithin(t, ticks, b, i, ks[9], slot)
  {
    KsRise(ticks, i, ks, 0, 9);
    var p := rests[i + 1].snap.polling.probeSlot;
    var _ := ProbesInTurn(t, run, ticks, rests, b, i, ks, p, 10);
    var m := TurnsCover(p, slot);
    assert TurnShown(t, ticks, b, i, ks[9], p, m);
  }

  // ---- A lost service, other fleets ----

  lemma LossIsNoticed(t: seq<Event>, run: seq<Monitor>, ticks: seq<TickSpan>, rests: seq<Rest>, b: nat, i: nat, k: nat)
    requires Log(t, run, ticks, rests) && BaselinedBy(t, ticks, b, i) && Gap(ticks, i, k, 250) && ticks[k].to <= |t|
    requires Unavailable(ticks, i, k)
    ensures ResetWithin(t, b, ticks[k].to)
  {
    if NoReset(t, b, ticks[k].to) {
      StandingBefore(t, run, ticks, rests, b, i, i, k);
      StandingAfter(t, run, ticks, rests, b, i, i);
      assert Rested(ticks, rests, i + 1);
      var j := NextProbe(t, run, ticks, rests, b, i, i, k);
    }
  }

  // A transition never changes the fleet of its slot.
  lemma TransitionKeepsFleet(t: seq<Event>, run: seq<Monitor>, hi: nat)
    requires Accepts(t, run) && hi < |t| && t[hi].Transition?
    ensures SameFleet(run[hi].published[t[hi].slot], Some(Entry(t[hi].fleet, t[hi].after)))
  {
    var _ := DueComesFromSeeing(t, run, hi);
  }

  lemma {:induction false} PublishedTopology(t: seq<Event>, run: seq<Monitor>, b: nat, hi: nat, slot: Slot)
    requires Accepts(t, run) && hi <= |t| && LiveFrom(t, b, hi)
    ensures run[hi].phase == Live && SameTopology(t[b].view[slot], run[hi].published[slot])
  {
    LiveAfterBaseline(t, run, b, hi);
    if b < hi - 1 {
      assert LiveFrom(t, b, hi - 1);
      PublishedTopology(t, run, b, hi - 1, slot);
      StepBackwards(run[hi - 1], t[hi - 1]);
      if PublishesSlot(t[hi - 1], slot) {
        TransitionKeepsFleet(t, run, hi - 1);
      }
    }
  }

  lemma LastTopology(t: seq<Event>, run: seq<Monitor>, b: nat, hi: nat, slot: Slot, known: Option<Entry>)
    requires Accepts(t, run) && hi <= |t| && LiveFrom(t, b, hi) && LastPublished(t, b, hi, slot, known)
    ensures SameTopology(t[b].view[slot], known)
  {
    if k :| b < k < hi && PublishesSlot(t[k], slot) && known == Some(Entry(t[k].fleet, t[k].after)) {
      assert LiveFrom(t, b, k);
      PublishedTopology(t, run, b, k, slot);
      TransitionKeepsFleet(t, run, k);
    }
  }

  lemma MoveIsNoticed(t: seq<Event>, run: seq<Monitor>, ticks: seq<TickSpan>, rests: seq<Rest>, b: nat, i: nat, ks: seq<nat>,
                      slot: Slot)
    requires Log(t, run, ticks, rests) && Watched(t, ticks, b, i, ks) && Moved(ticks, i, ks[9], slot, t[b].view[slot])
    ensures ResetWithin(t, b, ticks[ks[9]].to)
  {
    if NoReset(t, b, ticks[ks[9]].to) {
      EverySlotIsShown(t, run, ticks, rests, b, i, ks, slot);
      var j :| i < j <= ks[9] && Shown(t, ticks, b, j, slot);
      LastTopology(t, run, b, ticks[j].to, slot, ticks[j].service.fleets[slot]);
    }
  }

  // ---- A service that stays as it is ----

  lemma {:induction false} TicksRise(t: seq<Event>, run: seq<Monitor>, lo: nat, hi: nat)
    requires Accepts(t, run) && lo <= hi <= |t|
    ensures run[lo].ticks <= run[hi].ticks
  {
    if lo < hi {
      TicksRise(t, run, lo, hi - 1);
      assert run[hi] == Step(run[hi - 1], t[hi - 1]);
    }
  }

  lemma NoOtherTick(t: seq<Event>, run: seq<Monitor>, lo: nat, hi: nat, k: nat)
    requires Accepts(t, run) && lo < k < hi <= |t| && t[lo].TickStart? && run[hi].ticks == run[lo].ticks + 1
    ensures !t[k].TickStart?
  {
    assert run[lo + 1] == Step(run[lo], t[lo]) && run[k + 1] == Step(run[k], t[k]);
    TicksRise(t, run, lo + 1, k);
    TicksRise(t, run, k + 1, hi);
  }

  // A tick that resets does not announce a baseline as well.
  lemma {:induction false} ResetStays(t: seq<Event>, run: seq<Monitor>, lo: nat, r: nat, hi: nat)
    requires Accepts(t, run) && lo < r < hi <= |t| && t[r].Reset? && forall k :: lo < k < hi ==> !t[k].TickStart?
    ensures run[hi].phase != Live && (run[hi].phase == Seeding ==> !run[hi].armed)
  {
    assert Allowed(run[hi - 1], t[hi - 1]) && run[hi] == Step(run[hi - 1], t[hi - 1]);
    if r < hi - 1 {
      ResetStays(t, run, lo, r, hi - 1);
    }
  }

  lemma NoResetInTick(t: seq<Event>, run: seq<Monitor>, lo: nat, hi: nat)
    requires Accepts(t, run) && lo < hi <= |t| && t[lo].TickStart? && run[hi].ticks == run[lo].ticks + 1
    requires run[hi].phase == Live
    ensures NoReset(t, lo - 1, hi)
  {
    if r :| lo - 1 < r < hi && t[r].Reset? {
      forall k | lo < k < hi ensures !t[k].TickStart? {
        NoOtherTick(t, run, lo, hi, k);
      }
      ResetStays(t, run, lo, r, hi);
    }
  }

  lemma NothingRestarts(was: Rest, tick: TickSpan, left: Rest)
    requires Sound(was) && Sound(left) && Ticked(was.snap, tick, left.snap) && was.snap.record.phase == Live
    requires tick.now > 0 && tick.service.available
    requires forall slot: Slot :: SameTopology(was.snap.table[slot].Held(), tick.service.fleets[slot])
    ensures left.snap.record.phase == Live
  {
  }

  // The next tick of a service that still has the baselined fleets.
  lemma StandsOn(t: seq<Event>, run: seq<Monitor>, ticks: seq<TickSpan>, rests: seq<Rest>, b: nat, i: nat, j: nat)
    requires Log(t, run, ticks, rests) && i <= j && Standing(t, ticks, b, i, j) && j + 1 < |ticks|
    requires ticks[j + 1].now > 0 && ticks[j + 1].service.available && SameFleets(t[b].view, ticks[j + 1].service.fleets)
    ensures Standing(t, ticks, b, i, j + 1)
  {
    var was, left, tick := rests[j + 1], rests[j + 2], ticks[j + 1];
    StandingAfter(t, run, ticks, rests, b, i, j);
    assert Follow(ticks, j, j + 1) && Placed(t, run, ticks, rests, j + 1) && Stepped(ticks, rests, j + 1);
    assert Rested(ticks, rests, j + 1) && Rested(ticks, rests, j + 2);
    forall slot: Slot ensures SameTopology(was.snap.table[slot].Held(), tick.service.fleets[slot]) {
      PublishedTopology(t, run, b, tick.from, slot);
      assert was.snap.record.published[slot] == ViewOf(was.snap.table)[slot];
    }
    NothingRestarts(was, tick, left);
    NoResetInTick(t, run, tick.from, tick.to);
  }

  // From tick i on the service is as given, available, with the baselined fleets.
  ghost predicate Fixed(t: seq<Event>, ticks: seq<TickSpan>, b: nat, i: nat, k: nat, service: Service) {
    && BaselinedBy(t, ticks, b, i) && i <= k && Unchanging(ticks, i, k, service) && service.available
    && SameFleets(t[b].view, service.fleets) && ticks[i].now > 0
  }

  lemma {:induction false} StandsThroughout(t: seq<Event>, run: seq<Monitor>, ticks: seq<TickSpan>, rests: seq<Rest>, b: nat,
                                            i: nat, j: nat, k: nat, service: Service)
    requires Log(t, run, ticks, rests) && Fixed(t, ticks, b, i, k, service) && Standing(t, ticks, b, i, i) && i <= j <= k
    ensures Standing(t, ticks, b, i, j)
  {
    if i < j {
      StandsThroughout(t, run, ticks, rests, b, i, j - 1, k, service);
      TimesRise(t, run, ticks, rests, i, j);
      StandsOn(t, run, ticks, rests, b, i, j - 1);
    }
  }

  lemma HeldOrReported(was: Rest, tick: TickSpan, left: Rest, slot: Slot)
    requires LiveTick(was, tick, left)
    ensures left.snap.table[slot].Held() in {was.snap.table[slot].Held(), tick.service.fleets[slot]}
  {
    assert SlotPaced(was.snap.table[slot], left.snap.table[slot], tick.service.fleets[slot], tick.subscriptions, tick.now);
  }

  // Once a slot holds what such a service reports, it keeps holding it.
  lemma {:induction false} KeepsHolding(t: seq<Event>, run: seq<Monitor>, ticks: seq<TickSpan>, rests: seq<Rest>, b: nat,
                                        i: nat, j: nat, k: nat, service: Service, slot: Slot)
    requires Log(t, run, ticks, rests) && Standing(t, ticks, b, i, k) && i <= j <= k && Unchanging(ticks, i, k, service)
    requires rests[j + 1].snap.table[slot].Held() == service.fleets[slot]
    ensures rests[k + 1].snap.table[slot].Held() == service.fleets[slot]
  {
    if j < k {
      LaterTick(t, run, ticks, rests, k - 1, k);
      KeepsHolding(t, run, ticks, rests, b, i, j, k - 1, service, slot);
      LiveTicks(t, run, ticks, rests, b, i, k);
      HeldOrReported(rests[k], ticks[k], rests[k + 1], slot);
    }
  }

  // What is last published of a slot is what the table holds.
  lemma {:induction false} LastIsUnique(t: seq<Event>, b: int, hi: nat, slot: Slot, known: Option<Entry>, other: Option<Entry>)
    requires hi <= |t| && LiveFrom(t, b, hi) && LastPublished(t, b, hi, slot, known) && LastPublished(t, b, hi, slot, other)
    ensures known == other
  {
    if (exists k :: b < k < hi && PublishesSlot(t[k], slot)) {
      var k :| b < k < hi && PublishesSlot(t[k], slot) && known == Some(Entry(t[k].fleet, t[k].after))
               && forall n :: k < n < hi ==> !PublishesSlot(t[n], slot);
      var m :| b < m < hi && PublishesSlot(t[m], slot) && other == Some(Entry(t[m].fleet, t[m].after))
               && forall n :: m < n < hi ==> !PublishesSlot(t[n], slot);
      assert k == m;
    }
  }

  lemma HeldIsShown(t: seq<Event>, run: seq<Monitor>, ticks: seq<TickSpan>, rests: seq<Rest>, b: nat, i: nat, j: nat, slot: Slot)
    requires Log(t, run, ticks, rests) && Standing(t, ticks, b, i, j)
    ensures LiveFrom(t, b, ticks[j].to)
    ensures LastPublished(t, b, ticks[j].to, slot, rests[j + 1].snap.table[slot].Held())
  {
    StandingAfter(t, run, ticks, rests, b, i, j);
    assert Rested(ticks, rests, j + 1);
    assert rests[j + 1].snap.record.published[slot] == ViewOf(rests[j + 1].snap.table)[slot];
  }

  lemma EverySlotIsPublished(t: seq<Event>, run: seq<Monitor>, ticks: seq<TickSpan>, rests: seq<Rest>, b: nat, i: nat,
                             ks: seq<nat>, service: Service, slot: Slot)
    requires Log(t, run, ticks, rests) && Watched(t, ticks, b, i, ks) && NoReset(t, b, ticks[i].to)
    requires Fixed(t, ticks, b, i, ks[9], service)
    ensures LiveFrom(t, b, ticks[ks[9]].to)
    ensures LastPublished(t, b, ticks[ks[9]].to, slot, service.fleets[slot])
  {
    var k := ks[9];
    KsRise(ticks, i, ks, 0, 9);
    StandsThroughout(t, run, ticks, rests, b, i, k, k, service);
    EverySlotIsShown(t, run, ticks, rests, b, i, ks, slot);
    var j :| i < j <= k && Shown(t, ticks, b, j, slot);
    StandingBefore(t, run, ticks, rests, b, i, j, k);
    HeldIsShown(t, run, ticks, rests, b, i, j, slot);
    LastIsUnique(t, b, ticks[j].to, slot, rests[j + 1].snap.table[slot].Held(), service.fleets[slot]);
    KeepsHolding(t, run, ticks, rests, b, i, j, k, service, slot);
    HeldIsShown(t, run, ticks, rests, b, i, k, slot);
  }

  // ---- Seeding ----

  // Tick j follows ticks that have left a trace.
  ghost predicate Runs(t: seq<Event>, run: seq<Monitor>, ticks: seq<TickSpan>, rests: seq<Rest>, j: nat) {
    && j < |ticks| && j + 1 < |rests| && |run| == |t| + 1 && 0 < ticks[j].from < ticks[j].to <= |t|
    && run[ticks[j].from] == rests[j].snap.record && run[ticks[j].to] == rests[j + 1].snap.record
    && Sound(rests[j]) && Sound(rests[j + 1]) && Ticked(rests[j].snap, ticks[j], rests[j + 1].snap)
  }

  lemma RunsOn(t: seq<Event>, run: seq<Monitor>, ticks: seq<TickSpan>, rests: seq<Rest>, j: nat)
    requires Log(t, run, ticks, rests) && 0 < j < |ticks| && ticks[j - 1].to > 0
    ensures Runs(t, run, ticks, rests, j) && ticks[j].from == ticks[j - 1].to
  {
    assert Placed(t, run, ticks, rests, j) && Follow(ticks, j - 1, j) && Stepped(ticks, rests, j);
    assert Rested(ticks, rests, j) && Rested(ticks, rests, j + 1);
  }

  ghost predicate SeedingTick(was: Rest, tick: TickSpan, left: Rest) {
    Sound(was) && Sound(left) && Ticked(was.snap, tick, left.snap) && was.snap.record.phase == Seeding
  }

  // The table holds what the service reports, by observation.
  ghost predicate Agreed(r: Rest, service: Service) {
    ViewOf(r.snap.table) == service.fleets && r.snap.seed.hasObservation
  }

  // A tick looks at the service when five seconds have passed; whenever one looks, they agree.
  lemma LooksOrWaits(was: Rest, tick: TickSpan, left: Rest)
    requires SeedingTick(was, tick, left) && tick.service.available && left.snap.record.phase == Seeding
    ensures was.snap.seed.lastAttempt == 0 || tick.now - was.snap.seed.lastAttempt >= 5000 ==> Agreed(left, tick.service)
    ensures Agreed(left, tick.service) || left.snap.seed.lastAttempt == was.snap.seed.lastAttempt
  {
  }

  lemma AgreedStays(was: Rest, tick: TickSpan, left: Rest)
    requires SeedingTick(was, tick, left) && tick.service.available && Agreed(was, tick.service)
    ensures left.snap.record.phase != Dormant
    ensures left.snap.record.phase == Seeding ==>
              Agreed(left, tick.service) && left.snap.seed.lastChange == was.snap.seed.lastChange
    ensures tick.now - was.snap.seed.lastChange >= 5000 && left.snap.record.phase == Seeding ==>
              !was.snap.seed.finalizeCandidate && left.snap.seed.finalizeCandidate
  {
  }

  // Seeding goes on, up to tick j.
  ghost predicate StillSeeding(ticks: seq<TickSpan>, rests: seq<Rest>, j: nat) {
    j < |ticks| && j + 1 < |rests| && ticks[j].to > 0 && rests[j + 1].snap.record.phase == Seeding
  }

  // Either the seeding goes on or it has ended in the trace since tick a.
  ghost predicate SeedingOrDone(t: seq<Event>, ticks: seq<TickSpan>, rests: seq<Rest>, a: nat, j: nat) {
    && a <= j < |ticks| && ticks[j].to <= |t|
    && (|| StillSeeding(ticks, rests, j)
        || BaselineWithin(t, ticks[a].to, ticks[j].to) || GaveUpWithin(t, ticks[a].to, ticks[j].to))
  }

  // What ends a seeding in tick j.
  lemma SeedingEnds(t: seq<Event>, run: seq<Monitor>, ticks: seq<TickSpan>, rests: seq<Rest>, j: nat)
    requires Log(t, run, ticks, rests) && j > 0 && j < |ticks| && StillSeeding(ticks, rests, j - 1)
    ensures Runs(t, run, ticks, rests, j) && ticks[j].from == ticks[j - 1].to
    ensures match rests[j + 1].snap.record.phase
            case Seeding => StillSeeding(ticks, rests, j)
            case Live => BaselineWithin(t, ticks[j - 1].to, ticks[j].to)
            case Dormant => GaveUpWithin(t, ticks[j - 1].to, ticks[j].to)
  {
    RunsOn(t, run, ticks, rests, j);
    match rests[j + 1].snap.record.phase
    case Seeding =>
    case Live => BaselineBetween(t, run, ticks[j].from, ticks[j].to);
    case Dormant => GaveUpBetween(t, run, ticks[j].from, ticks[j].to);
  }

  // The end of the seeding lies in the trace of the ticks from j on up to k.
  lemma EndsWithin(t: seq<Event>, lo: nat, mid: nat, mid': nat, hi: nat)
    requires lo <= mid <= mid' <= hi <= |t|
    ensures BaselineWithin(t, mid, mid') ==> BaselineWithin(t, lo, hi)
    ensures GaveUpWithin(t, mid, mid') ==> GaveUpWithin(t, lo, hi)
  {
  }

  // By tick x the service has been looked at, or the seeding has ended.
  lemma {:induction false} FirstLook(t: seq<Event>, run: seq<Monitor>, ticks: seq<TickSpan>, rests: seq<Rest>, a: nat, x: nat,
                                     service: Service)
    returns (j: nat)
    requires Log(t, run, ticks, rests) && StillSeeding(ticks, rests, a) && a < x && Unchanging(ticks, a, x, service)
    requires service.available && ticks[x].now - rests[a + 1].snap.seed.lastAttempt >= 5000
    ensures a < j <= x && ticks[a].to <= ticks[j].to <= ticks[x].to <= |t|
    ensures || (StillSeeding(ticks, rests, j) && Agreed(rests[j + 1], service))
            || BaselineWithin(t, ticks[a].to, ticks[j].to) || GaveUpWithin(t, ticks[a].to, ticks[j].to)
    decreases x - a
  {
    j := a + 1;
    SeedingEnds(t, run, ticks, rests, j);
    LaterTick(t, run, ticks, rests, j, x);
    if StillSeeding(ticks, rests, j) {
      LooksOrWaits(rests[j], ticks[j], rests[j + 1]);
      if !Agreed(rests[j + 1], service) {
        j := FirstLook(t, run, ticks, rests, a + 1, x, service);
        EndsWithin(t, ticks[a].to, ticks[a + 1].to, ticks[j].to, ticks[j].to);
      }
    }
  }

  // The service is looked at and stays as it is: the quiet period runs, or the baseline is announced.
  lemma {:induction false} QuietUntil(t: seq<Event>, run: seq<Monitor>, ticks: seq<TickSpan>, rests: seq<Rest>, j: nat, k: nat,
                                      service: Service)
    requires Log(t, run, ticks, rests) && StillSeeding(ticks, rests, j) && Agreed(rests[j + 1], service) && j <= k
    requires Unchanging(ticks, j, k, service) && service.available
    ensures ticks[j].to <= ticks[k].to <= |t|
    ensures || BaselineWithin(t, ticks[j].to, ticks[k].to)
            || (StillSeeding(ticks, rests, k) && Agreed(rests[k + 1], service)
                && rests[k + 1].snap.seed.lastChange == rests[j + 1].snap.seed.lastChange)
  {
    LaterTick(t, run, ticks, rests, j, k);
    if j < k {
      QuietUntil(t, run, ticks, rests, j, k - 1, service);
      LaterTick(t, run, ticks, rests, k - 1, k);
      if StillSeeding(ticks, rests, k - 1) && Agreed(rests[k], service) {
        SeedingEnds(t, run, ticks, rests, k);
        AgreedStays(rests[k], ticks[k], rests[k + 1]);
      }
    }
  }

  lemma SeedingHolds(t: seq<Event>, run: seq<Monitor>, ticks: seq<TickSpan>, rests: seq<Rest>, a: nat)
    requires Log(t, run, ticks, rests) && a < |ticks| && SeedingAt(t, ticks[a].to)
    ensures StillSeeding(ticks, rests, a) && rests[a + 1].snap.seed.lastAttempt <= ticks[a].now
  {
    var r :| 0 <= r < ticks[a].to && t[r].Reset? && forall k :: r < k < ticks[a].to ==> !t[k].Baseline? && !t[k].GaveUp?;
    SeedingSince(t, run, r, ticks[a].to);
    assert Placed(t, run, ticks, rests, a) && Rested(ticks, rests, a + 1);
  }

  // The quiet period is over at tick c: the candidate is set by then, and confirmed in the next tick.
  lemma ConfirmedAfter(t: seq<Event>, run: seq<Monitor>, ticks: seq<TickSpan>, rests: seq<Rest>, c: nat, service: Service)
    requires Log(t, run, ticks, rests) && c > 0 && c + 1 < |ticks| && StillSeeding(ticks, rests, c - 1)
    requires Agreed(rests[c], service) && Unchanging(ticks, c - 1, c + 1, service) && service.available
    requires ticks[c].now - rests[c].snap.seed.lastChange >= 5000
    ensures ticks[c - 1].to <= ticks[c + 1].to <= |t| && BaselineWithin(t, ticks[c - 1].to, ticks[c + 1].to)
  {
    SeedingEnds(t, run, ticks, rests, c);
    AgreedStays(rests[c], ticks[c], rests[c + 1]);
    LaterTick(t, run, ticks, rests, c - 1, c);
    LaterTick(t, run, ticks, rests, c, c + 1);
    if StillSeeding(ticks, rests, c) {
      TimesRise(t, run, ticks, rests, c, c + 1);
      SeedingEnds(t, run, ticks, rests, c + 1);
      AgreedStays(rests[c + 1], ticks[c + 1], rests[c + 2]);
    }
  }

  lemma BaselineComes(t: seq<Event>, run: seq<Monitor>, ticks: seq<TickSpan>, rests: seq<Rest>, a: nat, x: nat, y: nat,
                      c: nat, d: nat, service: Service)
    requires Log(t, run, ticks, rests) && a < |ticks| && SeedingAt(t, ticks[a].to)
    requires Gap(ticks, a, x, 5000) && x < y && Gap(ticks, y, c, 5000) && c < d && Unchanging(ticks, a, d, service)
    requires service.available
    ensures GaveUpWithin(t, ticks[a].to, ticks[x].to) || BaselineWithin(t, ticks[a].to, ticks[d].to)
  {
    SeedingHolds(t, run, ticks, rests, a);
    var j := FirstLook(t, run, ticks, rests, a, x, service);
    LaterTick(t, run, ticks, rests, x, d);
    if StillSeeding(ticks, rests, j) && Agreed(rests[j + 1], service) {
      QuietUntil(t, run, ticks, rests, j, c - 1, service);
      LaterTick(t, run, ticks, rests, c - 1, d);
      if StillSeeding(ticks, rests, c - 1) && Agreed(rests[c], service)
         && rests[c].snap.seed.lastChange == rests[j + 1].snap.seed.lastChange {
        TimesRise(t, run, ticks, rests, j, y);
        assert Rested(ticks, rests, j + 1);
        ConfirmedAfter(t, run, ticks, rests, c, service);
        LaterTick(t, run, ticks, rests, c + 1, d);
      }
    }
  }

  // ---- No service ----

  lemma UnseenOrWaits(was: Rest, tick: TickSpan, left: Rest)
    requires SeedingTick(was, tick, left) && !tick.service.available
    ensures left.snap.record.phase != Live
    ensures left.snap.record.phase == Seeding && was.snap.seed.hasObservation && left.snap.seed.hasObservation ==>
      && left.snap.seed.lastAttempt == was.snap.seed.lastAttempt != 0 && tick.now - was.snap.seed.lastAttempt < 5000
    ensures left.snap.record.phase == Seeding && !was.snap.seed.hasObservation ==>
      && !left.snap.seed.hasObservation && tick.now - left.snap.seed.started < 120000
      && left.snap.seed.started == if was.snap.seed.started == 0 then tick.now else was.snap.seed.started
  {
  }

  ghost predicate StillUnseen(ticks: seq<TickSpan>, rests: seq<Rest>, j: nat) {
    StillSeeding(ticks, rests, j) && !rests[j + 1].snap.seed.hasObservation
  }

  // By tick x a service that was observed is known to be lost, or the seeding was given up.
  lemma {:induction false} LossKnown(t: seq<Event>, run: seq<Monitor>, ticks: seq<TickSpan>, rests: seq<Rest>, a: nat, x: nat)
    returns (j: nat)
    requires Log(t, run, ticks, rests) && StillSeeding(ticks, rests, a) && a < x && Unavailable(ticks, a, x)
    requires ticks[x].now - rests[a + 1].snap.seed.lastAttempt >= 5000
    ensures a < j <= x && ticks[a].to <= ticks[j].to <= ticks[x].to <= |t|
    ensures StillUnseen(ticks, rests, j) || GaveUpWithin(t, ticks[a].to, ticks[j].to)
    decreases x - a
  {
    j := a + 1;
    SeedingEnds(t, run, ticks, rests, j);
    LaterTick(t, run, ticks, rests, j, x);
    UnseenOrWaits(rests[j], ticks[j], rests[j + 1]);
    if StillSeeding(ticks, rests, j) && rests[j + 1].snap.seed.hasObservation {
      j := LossKnown(t, run, ticks, rests, a + 1, x);
      EndsWithin(t, ticks[a].to, ticks[a + 1].to, ticks[j].to, ticks[j].to);
    }
  }

  // Without a service nothing is observed, and from tick y on the seeding is known to be old.
  lemma {:induction false} UnseenUntil(t: seq<Event>, run: seq<Monitor>, ticks: seq<TickSpan>, rests: seq<Rest>, j: nat,
                                       y: nat, k: nat)
    requires Log(t, run, ticks, rests) && StillUnseen(ticks, rests, j) && j <= k && j < y && Unavailable(ticks, j, k)
    requires y < |ticks| && ticks[y].now > 0
    ensures ticks[j].to <= ticks[k].to <= |t|
    ensures || GaveUpWithin(t, ticks[j].to, ticks[k].to)
            || (StillUnseen(ticks, rests, k) && (k >= y ==> 0 != rests[k + 1].snap.seed.started <= ticks[y].now))
  {
    LaterTick(t, run, ticks, rests, j, k);
    if j < k {
      UnseenUntil(t, run, ticks, rests, j, y, k - 1);
      LaterTick(t, run, ticks, rests, k - 1, k);
      if StillUnseen(ticks, rests, k - 1) {
        SeedingEnds(t, run, ticks, rests, k);
        UnseenOrWaits(rests[k], ticks[k], rests[k + 1]);
        assert Timed(ticks, rests, k);
      }
    }
  }

  lemma GivingUpComes(t: seq<Event>, run: seq<Monitor>, ticks: seq<TickSpan>, rests: seq<Rest>, a: nat, x: nat, y: nat, g: nat)
    requires Log(t, run, ticks, rests) && a < |ticks| && SeedingAt(t, ticks[a].to)
    requires Gap(ticks, a, x, 5000) && x < y && Gap(ticks, y, g, 120000) && ticks[y].now > 0 && Unavailable(ticks, a, g)
    ensures GaveUpWithin(t, ticks[a].to, ticks[g].to)
  {
    SeedingHolds(t, run, ticks, rests, a);
    var j := LossKnown(t, run, ticks, rests, a, x);
    LaterTick(t, run, ticks, rests, x, g);
    if StillUnseen(ticks, rests, j) {
      UnseenUntil(t, run, ticks, rests, j, y, g - 1);
      LaterTick(t, run, ticks, rests, g - 1, g);
      if !GaveUpWithin(t, ticks[j].to, ticks[g - 1].to) {
        TooLong(t, run, ticks, rests, y, g);
      }
    }
  }

  // Two minutes after tick y an unseen service is given up.
  lemma TooLong(t: seq<Event>, run: seq<Monitor>, ticks: seq<TickSpan>, rests: seq<Rest>, y: nat, g: nat)
    requires Log(t, run, ticks, rests) && 0 < g && Gap(ticks, y, g, 120000) && !ticks[g].service.available
    requires StillUnseen(ticks, rests, g - 1) && 0 != rests[g].snap.seed.started <= ticks[y].now
    ensures ticks[g - 1].to <= ticks[g].to <= |t| && GaveUpWithin(t, ticks[g - 1].to, ticks[g].to)
  {
    SeedingEnds(t, run, ticks, rests, g);
    UnseenOrWaits(rests[g], ticks[g], rests[g + 1]);
  }

  // ---- Given up ----

  lemma DiscoversOrWaits(was: Rest, tick: TickSpan, left: Rest)
    requires Sound(was) && Sound(left) && Ticked(was.snap, tick, left.snap) && was.snap.record.phase == Dormant
    requires tick.service.available
    ensures left.snap.record.phase == Seeding
            || (&& left.snap.record.phase == Dormant && tick.now - was.snap.polling.lastManagerDiscovery < 5000
                && left.snap.polling.lastManagerDiscovery == was.snap.polling.lastManagerDiscovery)
  {
  }

  lemma {:induction false} DiscoveryComes(t: seq<Event>, run: seq<Monitor>, ticks: seq<TickSpan>, rests: seq<Rest>, a: nat,
                                          c: nat)
    requires Log(t, run, ticks, rests) && a < c < |ticks| && ticks[a].to > 0 && rests[a + 1].snap.record.phase == Dormant
    requires ticks[c].now - rests[a + 1].snap.polling.lastManagerDiscovery >= 5000
    requires forall j :: a < j <= c ==> ticks[j].service.available
    ensures ticks[c].to <= |t| && ResetWithin(t, ticks[a].to - 1, ticks[c].to)
    decreases c - a
  {
    var j := a + 1;
    RunsOn(t, run, ticks, rests, j);
    LaterTick(t, run, ticks, rests, j, c);
    DiscoversOrWaits(rests[j], ticks[j], rests[j + 1]);
    if rests[j + 1].snap.record.phase == Seeding {
      ResetBetween(t, run, ticks[j].from, ticks[j].to);
    } else {
      DiscoveryComes(t, run, ticks, rests, a + 1, c);
    }
  }

  lemma DormantHolds(t: seq<Event>, run: seq<Monitor>, ticks: seq<TickSpan>, rests: seq<Rest>, a: nat)
    requires Log(t, run, ticks, rests) && a < |ticks| && GivenUpAt(t, ticks[a].to)
    ensures ticks[a].to > 0 && rests[a + 1].snap.record.phase == Dormant
    ensures rests[a + 1].snap.polling.lastManagerDiscovery <= ticks[a].now
  {
    var p :| 0 <= p < ticks[a].to && t[p].GaveUp? && forall k :: p < k < ticks[a].to ==> !t[k].Reset?;
    DormantSince(t, run, p, ticks[a].to);
    assert Placed(t, run, ticks, rests, a) && Rested(ticks, rests, a + 1);
  }

  // ---- Fast polling ----

  lemma {:induction false} UnpublishedKept(t: seq<Event>, run: seq<Monitor>, lo: nat, hi: nat, slot: Slot)
    requires Accepts(t, run) && lo <= hi <= |t| && run[lo].phase == Live
    requires forall k :: lo <= k < hi ==> !t[k].Reset? && !PublishesSlot(t[k], slot)
    ensures run[hi].phase == Live ==> run[hi].published[slot] == run[lo].published[slot]
    ensures run[hi].phase != Seeding
  {
    if lo < hi {
      UnpublishedKept(t, run, lo, hi - 1, slot);
      assert Allowed(run[hi - 1], t[hi - 1]) && run[hi] == Step(run[hi - 1], t[hi - 1]);
    }
  }

  // What is known of a slot within one tick: what it was when the tick began, until the service's
  // report of the slot is published.
  ghost predicate OldOrReported(m: Monitor, slot: Slot, old': Option<Entry>, service: Service) {
    && m.phase == Live && m.service == service && m.published[slot] in {old', service.fleets[slot]}
    && (m.due.Some? && PublishesSlot(m.due.value, slot) ==>
          service.fleets[slot] == Some(Entry(m.due.value.fleet, m.due.value.after)))
  }

  lemma KnownStep(m: Monitor, e: Event, slot: Slot, old': Option<Entry>, service: Service)
    requires Allowed(m, e) && !e.TickStart? && !e.Reset? && OldOrReported(m, slot, old', service)
    ensures OldOrReported(Step(m, e), slot, old', service)
  {
  }

  lemma {:induction false} KnownInTick(t: seq<Event>, run: seq<Monitor>, lo: nat, hi: nat, slot: Slot)
    requires Accepts(t, run) && lo < hi <= |t| && t[lo].TickStart? && run[lo].phase == Live && run[lo].due.None?
    requires forall k :: lo < k < hi ==> !t[k].TickStart? && !t[k].Reset?
    ensures OldOrReported(run[hi], slot, run[lo].published[slot], t[lo].service)
  {
    assert Allowed(run[hi - 1], t[hi - 1]) && run[hi] == Step(run[hi - 1], t[hi - 1]);
    if lo < hi - 1 {
      KnownInTick(t, run, lo, hi - 1, slot);
      KnownStep(run[hi - 1], t[hi - 1], slot, run[lo].published[slot], t[lo].service);
    }
  }

  // A baseline announced in a tick is followed by no transition in the same tick.
  ghost predicate Reported(m: Monitor, slot: Slot, service: Service) {
    && m.service == service
    && (m.phase == Live ==>
          m.published[slot] == service.fleets[slot] && !(m.due.Some? && PublishesSlot(m.due.value, slot)))
  }

  lemma StepAt(t: seq<Event>, run: seq<Monitor>, k: nat)
    requires Accepts(t, run) && k < |t|
    ensures Allowed(run[k], t[k]) && run[k + 1] == Step(run[k], t[k])
  {
  }

  lemma ReportedStep(m: Monitor, e: Event, slot: Slot, service: Service)
    requires Allowed(m, e) && !e.TickStart? && m.service == service && (e.Baseline? || Reported(m, slot, service))
    ensures Reported(Step(m, e), slot, service)
  {
  }

  lemma {:induction false} NoneAfterBaseline(t: seq<Event>, run: seq<Monitor>, b: nat, hi: nat, slot: Slot, service: Service)
    requires Accepts(t, run) && b < hi <= |t| && t[b].Baseline? && run[b].service == service
    requires forall k :: b < k < hi ==> !t[k].TickStart?
    ensures Reported(run[hi], slot, service)
  {
    var k := hi - 1;
    if b < k {
      NoneAfterBaseline(t, run, b, k, slot, service);
    }
    StepAt(t, run, k);
    ReportedStep(run[k], t[k], slot, service);
  }

  // A slot that is fast-polled since a time or later.
  predicate PolledSince(slot: ObservedFleet, since: int) {
    slot.FastPolling() && !slot.fastPollExhausted && slot.fastPollStarted >= since
  }

  lemma StartsFast(was: Rest, tick: TickSpan, left: Rest, slot: Slot, before: Entry, after: Entry)
    requires LiveTick(was, tick, left) && tick.now > 0 && before != after
    requires was.snap.table[slot].Held() == Some(before) && left.snap.table[slot].Held() == Some(after)
    requires !Wants(tick.subscriptions, before.state) && Wants(tick.subscriptions, after.state)
    ensures PolledSince(left.snap.table[slot], tick.now)
  {
    assert SlotPaced(was.snap.table[slot], left.snap.table[slot], tick.service.fleets[slot], tick.subscriptions, tick.now);
  }

  // One more tick of the half minute: the slot is refreshed or left as it is.
  lemma StaysFast(was: Rest, tick: TickSpan, left: Rest, slot: Slot, since: int)
    requires LiveTick(was, tick, left) && PolledSince(was.snap.table[slot], since) && since > 0
    requires since <= tick.now && tick.now - since < 30000
    requires Wants(tick.subscriptions, was.snap.table[slot].state)
    ensures left.snap.table[slot].Held() == was.snap.table[slot].Held() ==> PolledSince(left.snap.table[slot], since)
    ensures left.snap.table[slot].Held() in {was.snap.table[slot].Held(), tick.service.fleets[slot]}
  {
    assert SlotPaced(was.snap.table[slot], left.snap.table[slot], tick.service.fleets[slot], tick.subscriptions, tick.now);
  }

  lemma LooksFast(was: Rest, tick: TickSpan, left: Rest, slot: Slot, since: int)
    requires LiveTick(was, tick, left) && PolledSince(was.snap.table[slot], since) && tick.now - since < 30000
    requires tick.service.available && tick.service.fleets[slot].Some?
    ensures || left.snap.table[slot].Held() == tick.service.fleets[slot]
            || (&& was.snap.polling.lastFastPoll != 0 && tick.now - was.snap.polling.lastFastPoll < 250
                && left.snap.polling.lastFastPoll in {was.snap.polling.lastFastPoll, 0})
  {
    assert Recent(was.snap.table[slot], tick.now);
  }

  // The slot is fast-polled after tick j, still holding the state it came into in tick a.
  ghost predicate HeldFast(ticks: seq<TickSpan>, rests: seq<Rest>, a: nat, j: nat, slot: Slot, entry: Entry) {
    && a <= j < |ticks| && j + 1 < |rests| && rests[j + 1].snap.table[slot].Held() == Some(entry)
    && PolledSince(rests[j + 1].snap.table[slot], ticks[a].now) && Wants(ticks[a].subscriptions, entry.state)
    && ticks[a].now > 0
  }

  lemma HeldOneMore(t: seq<Event>, run: seq<Monitor>, ticks: seq<TickSpan>, rests: seq<Rest>, b: nat, a: nat, j: nat, slot: Slot,
                    entry: Entry)
    requires Log(t, run, ticks, rests) && Standing(t, ticks, b, a, j + 1) && HeldFast(ticks, rests, a, j, slot, entry)
    requires ticks[j + 1].now - ticks[a].now < 30000
    ensures HeldFast(ticks, rests, a, j + 1, slot, entry)
            || (rests[j + 2].snap.table[slot].Held() != Some(entry)
                && rests[j + 2].snap.table[slot].Held() == ticks[j + 1].service.fleets[slot])
  {
    LiveTicks(t, run, ticks, rests, b, a, j + 1);
    TimesRise(t, run, ticks, rests, a, j + 1);
    assert Follow(ticks, a, j + 1);
    WantsMore(ticks[a].subscriptions, ticks[j + 1].subscriptions, entry.state);
    StaysFast(rests[j + 1], ticks[j + 1], rests[j + 2], slot, ticks[a].now);
  }

  // Until its next transition the slot goes on being fast-polled.
  lemma {:induction false} HeldUntil(t: seq<Event>, run: seq<Monitor>, ticks: seq<TickSpan>, rests: seq<Rest>, b: nat, a: nat,
                                     j: nat, p: nat, slot: Slot, entry: Entry)
    requires Log(t, run, ticks, rests) && Standing(t, ticks, b, a, j) && HeldFast(ticks, rests, a, a, slot, entry)
    requires ticks[j].now - ticks[a].now < 30000 && ticks[a].from <= p < ticks[a].to
    requires forall k :: p < k < ticks[j].to ==> !PublishesSlot(t[k], slot)
    ensures HeldFast(ticks, rests, a, j, slot, entry)
    decreases j
  {
    if a < j {
      LaterTick(t, run, ticks, rests, j - 1, j);
      LaterTick(t, run, ticks, rests, a, j - 1);
      TimesRise(t, run, ticks, rests, j - 1, j);
      HeldUntil(t, run, ticks, rests, b, a, j - 1, p, slot, entry);
      HeldOneMore(t, run, ticks, rests, b, a, j - 1, slot, entry);
      SameBetween(t, run, ticks, rests, b, a, j - 1, j, slot);
    }
  }

  // Without a transition of the slot it holds the same.
  lemma SameBetween(t: seq<Event>, run: seq<Monitor>, ticks: seq<TickSpan>, rests: seq<Rest>, b: nat, a: nat, j: nat, k: nat,
                    slot: Slot)
    requires Log(t, run, ticks, rests) && Standing(t, ticks, b, a, k) && a <= j < k
    requires forall n :: ticks[j].to <= n < ticks[k].to ==> !PublishesSlot(t[n], slot)
    ensures rests[k + 1].snap.table[slot].Held() == rests[j + 1].snap.table[slot].Held()
  {
    StandingBefore(t, run, ticks, rests, b, a, j, k);
    StandingAfter(t, run, ticks, rests, b, a, j);
    StandingAfter(t, run, ticks, rests, b, a, k);
    LaterTick(t, run, ticks, rests, j, k);
    LaterTick(t, run, ticks, rests, a, j);
    assert Placed(t, run, ticks, rests, j) && Placed(t, run, ticks, rests, k);
    UnpublishedKept(t, run, ticks[j].to, ticks[k].to, slot);
    assert Rested(ticks, rests, j + 1) && Rested(ticks, rests, k + 1);
    assert rests[j + 1].snap.record.published[slot] == ViewOf(rests[j + 1].snap.table)[slot];
    assert rests[k + 1].snap.record.published[slot] == ViewOf(rests[k + 1].snap.table)[slot];
  }

  // By tick c the slot has been looked at, when the timer of the fast polls is old enough.
  lemma {:induction false} FastLook(t: seq<Event>, run: seq<Monitor>, ticks: seq<TickSpan>, rests: seq<Rest>, b: nat, a: nat,
                                    x: nat, c: nat, slot: Slot, entry: Entry)
    requires Log(t, run, ticks, rests) && Standing(t, ticks, b, a, c) && HeldFast(ticks, rests, a, x, slot, entry) && x < c
    requires ticks[c].now - ticks[a].now < 30000
    requires forall j :: x < j <= c ==> ticks[j].service.available && ticks[j].service.fleets[slot].Some?
    requires rests[x + 1].snap.polling.lastFastPoll == 0 || ticks[c].now - rests[x + 1].snap.polling.lastFastPoll >= 250
    ensures ShownWithin(t, ticks, b, x, c, slot)
    decreases c - x
  {
    var j := x + 1;
    StandingBefore(t, run, ticks, rests, b, a, j, c);
    if j < c {
      TimesRise(t, run, ticks, rests, j, c);
    }
    LiveTicks(t, run, ticks, rests, b, a, j);
    LooksFast(rests[j], ticks[j], rests[j + 1], slot, ticks[a].now);
    HeldOneMore(t, run, ticks, rests, b, a, x, slot, entry);
    if rests[j + 1].snap.table[slot].Held() == ticks[j].service.fleets[slot] {
      ShownAtEnd(t, run, ticks, rests, b, a, j, slot);
    } else {
      FastLook(t, run, ticks, rests, b, a, j, c, slot, entry);
      var k :| j < k <= c && Shown(t, ticks, b, k, slot);
      assert x < k <= c;
    }
  }

  // The baseline under which a transition is announced was announced before the tick.
  lemma BaselinedBefore(t: seq<Event>, run: seq<Monitor>, lo: nat, p: nat, hi: nat) returns (b: nat)
    requires Accepts(t, run) && lo < p < hi <= |t| && t[lo].TickStart? && run[hi].ticks == run[lo].ticks + 1
    requires t[p].Transition?
    ensures b < lo && t[b].Baseline? && LiveFrom(t, b, p)
  {
    b := TransitionContinuesChain(t, run, p);
    forall k | lo < k < p ensures !t[k].TickStart? {
      NoOtherTick(t, run, lo, hi, k);
    }
    if lo <= b {
      NoneAfterBaseline(t, run, b, p, t[p].slot, run[b].service);
    }
  }

  // What a slot is known to hold before and after its only transition in a tick.
  lemma AroundTransition(t: seq<Event>, run: seq<Monitor>, lo: nat, p: nat, hi: nat, b: nat)
    requires Accepts(t, run) && b < lo < p < hi <= |t| && t[lo].TickStart? && run[hi].ticks == run[lo].ticks + 1
    requires t[p].Transition? && t[b].Baseline? && NoReset(t, b, hi) && run[lo].due.None?
    requires forall k :: p < k < hi ==> !PublishesSlot(t[k], t[p].slot)
    ensures run[lo].phase == Live == run[hi].phase
    ensures run[lo].published[t[p].slot] == Some(Entry(t[p].fleet, t[p].before)) && t[p].before != t[p].after
    ensures run[hi].published[t[p].slot] == Some(Entry(t[p].fleet, t[p].after))
  {
    LiveAfterBaseline(t, run, b, lo);
    LiveAfterBaseline(t, run, b, hi);
    forall k | lo < k < p ensures !t[k].TickStart? {
      NoOtherTick(t, run, lo, hi, k);
    }
    KnownInTick(t, run, lo, p, t[p].slot);
    var _ := DueComesFromSeeing(t, run, p);
    assert Allowed(run[p], t[p]) && run[p + 1] == Step(run[p], t[p]);
    LiveAfterBaseline(t, run, b, p + 1);
    UnpublishedKept(t, run, p + 1, hi, t[p].slot);
  }

  // The tick in which a slot comes into a wanted state starts its fast polling.
  lemma FastBegins(t: seq<Event>, run: seq<Monitor>, ticks: seq<TickSpan>, rests: seq<Rest>, a: nat, p: nat, slot: Slot)
    returns (b: nat)
    requires Log(t, run, ticks, rests) && BecomesWanted(t, ticks, a, p, slot) && ticks[a].now > 0
    requires NoReset(t, p, ticks[a].to) && forall k :: p < k < ticks[a].to ==> !PublishesSlot(t[k], slot)
    ensures LiveFrom(t, b, p) && Standing(t, ticks, b, a, a)
    ensures HeldFast(ticks, rests, a, a, slot, Entry(t[p].fleet, t[p].after))
  {
    assert Placed(t, run, ticks, rests, a) && Stepped(ticks, rests, a);
    assert Rested(ticks, rests, a) && Rested(ticks, rests, a + 1);
    var was, left := rests[a], rests[a + 1];
    b := BaselinedBefore(t, run, ticks[a].from, p, ticks[a].to);
    AroundTransition(t, run, ticks[a].from, p, ticks[a].to, b);
    assert was.snap.record.published[slot] == ViewOf(was.snap.table)[slot];
    assert left.snap.record.published[slot] == ViewOf(left.snap.table)[slot];
    StartsFast(was, ticks[a], left, slot, Entry(t[p].fleet, t[p].before), Entry(t[p].fleet, t[p].after));
  }

  lemma FastLookComes(t: seq<Event>, run: seq<Monitor>, ticks: seq<TickSpan>, rests: seq<Rest>, a: nat, p: nat, slot: Slot,
                      x: nat, c: nat)
    requires Log(t, run, ticks, rests) && BecomesWanted(t, ticks, a, p, slot) && ticks[a].now > 0 && a <= x
    requires Gap(ticks, x, c, 250) && ticks[c].now - ticks[a].now < 30000
    requires ticks[c].to <= |t| && NoReset(t, p, ticks[c].to)
    requires ticks[x].to <= |t| && forall k :: p < k < ticks[x].to ==> !PublishesSlot(t[k], slot)
    requires forall j :: x < j <= c ==> ticks[j].service.available && ticks[j].service.fleets[slot].Some?
    ensures exists b: nat :: ShownWithin(t, ticks, b, x, c, slot)
  {
    LaterTick(t, run, ticks, rests, a, x);
    LaterTick(t, run, ticks, rests, x, c);
    TimesRise(t, run, ticks, rests, x, c);
    var entry := Entry(t[p].fleet, t[p].after);
    var b := FastBegins(t, run, ticks, rests, a, p, slot);
    assert Standing(t, ticks, b, a, c);
    StandingBefore(t, run, ticks, rests, b, a, x, c);
    HeldUntil(t, run, ticks, rests, b, a, x, p, slot, entry);
    StandingAfter(t, run, ticks, rests, b, a, x);
    assert Rested(ticks, rests, x + 1);
    FastLook(t, run, ticks, rests, b, a, x, c, slot, entry);
  }

  // ---- All bounds ----

  lemma SlotsAreInTime(t: seq<Event>, run: seq<Monitor>, ticks: seq<TickSpan>, rests: seq<Rest>)
    requires Log(t, run, ticks, rests)
    ensures SlotsInTime(t, ticks)
  {
    forall b: nat, i: nat, ks ensures EverySlotShown(t, ticks, b, i, ks) {
      AllShown(t, run, ticks, rests, b, i, ks);
    }
    forall b: nat, i: nat, ks, service ensures EverySlotPublished(t, ticks, b, i, ks, service) {
      AllPublished(t, run, ticks, rests, b, i, ks, service);
    }
    forall a: nat, p: nat, slot: Slot, x: nat, c: nat ensures FastPolledInTime(t, ticks, a, p, slot, x, c) {
      FastShown(t, run, ticks, rests, a, p, slot, x, c);
    }
  }

  lemma AllShown(t: seq<Event>, run: seq<Monitor>, ticks: seq<TickSpan>, rests: seq<Rest>, b: nat, i: nat, ks: seq<nat>)
    requires Log(t, run, ticks, rests)
    ensures EverySlotShown(t, ticks, b, i, ks)
  {
    if Watched(t, ticks, b, i, ks) && NoReset(t, b, ticks[ks[9]].to) {
      forall slot: Slot ensures ShownWithin(t, ticks, b, i, ks[9], slot) {
        EverySlotIsShown(t, run, ticks, rests, b, i, ks, slot);
      }
    }
  }

  lemma AllPublished(t: seq<Event>, run: seq<Monitor>, ticks: seq<TickSpan>, rests: seq<Rest>, b: nat, i: nat, ks: seq<nat>,
                     service: Service)
    requires Log(t, run, ticks, rests)
    ensures EverySlotPublished(t, ticks, b, i, ks, service)
  {
    if Watched(t, ticks, b, i, ks) && NoReset(t, b, ticks[i].to) && ticks[i].now > 0
       && Unchanging(ticks, i, ks[9], service) && service.available && SameFleets(t[b].view, service.fleets) {
      KsRise(ticks, i, ks, 0, 9);
      assert Fixed(t, ticks, b, i, ks[9], service);
      EverySlotIsPublished(t, run, ticks, rests, b, i, ks, service, 0);
      forall slot: Slot ensures LastPublished(t, b, ticks[ks[9]].to, slot, service.fleets[slot]) {
        EverySlotIsPublished(t, run, ticks, rests, b, i, ks, service, slot);
      }
    }
  }

  lemma FastShown(t: seq<Event>, run: seq<Monitor>, ticks: seq<TickSpan>, rests: seq<Rest>, a: nat, p: nat, slot: Slot,
                  x: nat, c: nat)
    requires Log(t, run, ticks, rests)
    ensures FastPolledInTime(t, ticks, a, p, slot, x, c)
  {
    if BecomesWanted(t, ticks, a, p, slot) && ticks[a].now > 0 && a <= x && Gap(ticks, x, c, 250)
       && ticks[c].now - ticks[a].now < 30000 && ticks[c].to <= |t| && NoReset(t, p, ticks[c].to)
       && ticks[x].to <= |t| && (forall k :: p < k < ticks[x].to ==> !PublishesSlot(t[k], slot))
       && (forall j :: x < j <= c ==> ticks[j].service.available && ticks[j].service.fleets[slot].Some?) {
      FastLookComes(t, run, ticks, rests, a, p, slot, x, c);
    }
  }

  lemma ResetsAreInTime(t: seq<Event>, run: seq<Monitor>, ticks: seq<TickSpan>, rests: seq<Rest>)
    requires Log(t, run, ticks, rests)
    ensures ResetsInTime(t, ticks)
  {
    forall b: nat, i: nat, k: nat ensures LossNoticed(t, ticks, b, i, k) {
      if BaselinedBy(t, ticks, b, i) && Gap(ticks, i, k, 250) && ticks[k].to <= |t| && Unavailable(ticks, i, k) {
        LossIsNoticed(t, run, ticks, rests, b, i, k);
      }
    }
    forall b: nat, i: nat, ks, slot: Slot ensures MoveNoticed(t, ticks, b, i, ks, slot) {
      if Watched(t, ticks, b, i, ks) && Moved(ticks, i, ks[9], slot, t[b].view[slot]) {
        MoveIsNoticed(t, run, ticks, rests, b, i, ks, slot);
      }
    }
    forall a: nat, c: nat ensures DiscoveredInTime(t, ticks, a, c) {
      DiscoveryIsMade(t, run, ticks, rests, a, c);
    }
  }

  lemma DiscoveryIsMade(t: seq<Event>, run: seq<Monitor>, ticks: seq<TickSpan>, rests: seq<Rest>, a: nat, c: nat)
    requires Log(t, run, ticks, rests)
    ensures DiscoveredInTime(t, ticks, a, c)
  {
    if Gap(ticks, a, c, 5000) && (forall j :: a < j <= c ==> ticks[j].service.available) && ticks[c].to <= |t|
       && GivenUpAt(t, ticks[a].to) {
      DormantHolds(t, run, ticks, rests, a);
      DiscoveryComes(t, run, ticks, rests, a, c);
    }
  }

  lemma SeedsAreInTime(t: seq<Event>, run: seq<Monitor>, ticks: seq<TickSpan>, rests: seq<Rest>)
    requires Log(t, run, ticks, rests)
    ensures SeedsInTime(t, ticks)
  {
    forall a: nat, x: nat, y: nat, c: nat, d: nat, service ensures BaselineInTime(t, ticks, a, x, y, c, d, service) {
      BaselineIsMade(t, run, ticks, rests, a, x, y, c, d, service);
    }
    forall a: nat, x: nat, y: nat, g: nat ensures GivenUpInTime(t, ticks, a, x, y, g) {
      GivingUpIsMade(t, run, ticks, rests, a, x, y, g);
    }
  }

  lemma BaselineIsMade(t: seq<Event>, run: seq<Monitor>, ticks: seq<TickSpan>, rests: seq<Rest>, a: nat, x: nat, y: nat,
                       c: nat, d: nat, service: Service)
    requires Log(t, run, ticks, rests)
    ensures BaselineInTime(t, ticks, a, x, y, c, d, service)
  {
    if Gap(ticks, a, x, 5000) && x < y && Gap(ticks, y, c, 5000) && c < d && Unchanging(ticks, a, d, service)
       && service.available && SeedingAt(t, ticks[a].to) {
      BaselineComes(t, run, ticks, rests, a, x, y, c, d, service);
    }
  }

  lemma GivingUpIsMade(t: seq<Event>, run: seq<Monitor>, ticks: seq<TickSpan>, rests: seq<Rest>, a: nat, x: nat, y: nat, g: nat)
    requires Log(t, run, ticks, rests)
    ensures GivenUpInTime(t, ticks, a, x, y, g)
  {
    if Gap(ticks, a, x, 5000) && x < y && Gap(ticks, y, g, 120000) && ticks[y].now > 0 && Unavailable(ticks, a, g)
       && SeedingAt(t, ticks[a].to) {
      GivingUpComes(t, run, ticks, rests, a, x, y, g);
    }
  }

  // Every logged run keeps the bounds.
  lemma EveryLogInTime(t: seq<Event>, run: seq<Monitor>, ticks: seq<TickSpan>, rests: seq<Rest>)
    requires Log(t, run, ticks, rests)
    ensures InTime(t, ticks)
  {
    SlotsAreInTime(t, run, ticks, rests);
    ResetsAreInTime(t, run, ticks, rests);
    SeedsAreInTime(t, run, ticks, rests);
  }

  // ---- The log grows ----

  // The Monitor's record of a trace begins with its record of any beginning of the trace.
  lemma {:induction false} RecordOfPrefix(t: seq<Event>, run: seq<Monitor>, t': seq<Event>, run': seq<Monitor>, n: nat)
    requires Accepts(t, run) && Accepts(t', run') && t <= t' && n <= |t|
    ensures run'[n] == run[n]
  {
    if n > 0 {
      RecordOfPrefix(t, run, t', run', n - 1);
      StepAt(t, run, n - 1);
      StepAt(t', run', n - 1);
    }
  }

  lemma TimersStay(was: Rest, tick: TickSpan, left: Rest, before: int)
    requires Sound(was) && Sound(left) && Ticked(was.snap, tick, left.snap) && TimersBehind(was, before)
    requires before <= tick.now && 0 <= was.clock <= tick.now
    ensures TimersBehind(left, tick.now)
  {
  }

  lemma LogLater(t: seq<Event>, run: seq<Monitor>, ticks: seq<TickSpan>, rests: seq<Rest>, t': seq<Event>, run': seq<Monitor>)
    requires Log(t, run, ticks, rests) && Accepts(t', run') && t <= t'
    ensures Log(t', run', ticks, rests)
  {
    forall j | 0 <= j < |ticks| ensures Placed(t', run', ticks, rests, j) {
      assert Placed(t, run, ticks, rests, j);
      RecordOfPrefix(t, run, t', run', ticks[j].from);
      RecordOfPrefix(t, run, t', run', ticks[j].to);
    }
  }

  // One more tick.
  lemma LogTick(t: seq<Event>, run: seq<Monitor>, ticks: seq<TickSpan>, rests: seq<Rest>, t': seq<Event>, run': seq<Monitor>,
                tick: TickSpan, left: Rest)
    requires Log(t, run, ticks, rests) && Accepts(t', run') && t <= t' && run[|t|] == rests[|ticks|].snap.record
    requires Sound(left) && rests[|ticks|].clock <= tick.now <= left.clock
    requires forall j :: 0 <= j < |ticks| ==> Follow(ticks + [tick], j, |ticks|)
    requires tick.to == |t'| && run'[|t'|] == left.snap.record
    requires if tick.subscriptions == [] then t' == [] && tick.from == 0 && left.snap == rests[|ticks|].snap else
             && tick.from == |t| < tick.to && t'[tick.from] == TickStart(tick.now, tick.service)
             && Ticked(rests[|ticks|].snap, tick, left.snap)
    ensures Log(t', run', ticks + [tick], rests + [left])
  {
    var n, ticks', rests' := |ticks|, ticks + [tick], rests + [left];
    LogLater(t, run, ticks, rests, t', run');
    RecordOfPrefix(t, run, t', run', |t|);
    forall j | 0 <= j <= n + 1 ensures Rested(ticks', rests', j) {
      if j <= n {
        assert Rested(ticks, rests, j);
      } else {
        TimersAtEnd(ticks, rests, tick, left);
      }
    }
    forall j | 0 <= j <= n ensures Timed(ticks', rests', j) && Placed(t', run', ticks', rests', j) && Stepped(ticks', rests', j) {
      if j < n {
        assert Timed(ticks, rests, j) && Placed(t', run', ticks, rests, j) && Stepped(ticks, rests, j);
      }
    }
    forall j, k | 0 <= j < k <= n ensures Follow(ticks', j, k) {
      if k < n {
        assert Follow(ticks, j, k);
      }
    }
  }

  lemma TimersAtEnd(ticks: seq<TickSpan>, rests: seq<Rest>, tick: TickSpan, left: Rest)
    requires |rests| == |ticks| + 1 && Rested(ticks, rests, |ticks|) && (ticks != [] ==> Timed(ticks, rests, |ticks| - 1))
    requires Sound(left) && rests[|ticks|].clock <= tick.now
    requires left.snap == rests[|ticks|].snap || Ticked(rests[|ticks|].snap, tick, left.snap)
    ensures TimersBehind(left, tick.now)
  {
    var was := rests[|ticks|];
    if left.snap != was.snap {
      TimersStay(was, tick, left, TimeOf(ticks, |ticks|));
    }
  }

  // The log so far, and how it ends.
  ghost predicate Current(t: seq<Event>, run: seq<Monitor>, ticks: seq<TickSpan>, rests: seq<Rest>, now: Rest,
                          subscriptions: seq<Subscription>) {
    && Log(t, run, ticks, rests) && rests[|ticks|] == now && run[|t|] == now.snap.record
    && (subscriptions == [] <==> t == [])
    && forall j :: 0 <= j < |ticks| ==> Ended(t, ticks, j, subscriptions)
  }

  ghost predicate Ended(t: seq<Event>, ticks: seq<TickSpan>, j: nat, subscriptions: seq<Subscription>) {
    && j < |ticks| && ticks[j].subscriptions <= subscriptions && ticks[j].to <= |t|
    && (j == |ticks| - 1 && ticks[j].to > 0 ==> ticks[j].to == |t|)
  }

  lemma CurrentTick(t: seq<Event>, run: seq<Monitor>, ticks: seq<TickSpan>, rests: seq<Rest>, was: Rest, t': seq<Event>,
                    run': seq<Monitor>, tick: TickSpan, left: Rest)
    requires Current(t, run, ticks, rests, was, tick.subscriptions) && Accepts(t', run') && t <= t'
    requires Sound(left) && was.clock <= tick.now <= left.clock
    requires tick.from == |t| && tick.to == |t'| && run'[|t'|] == left.snap.record
    requires if tick.subscriptions == [] then t' == t && left.snap == was.snap else
             && |t| < |t'| && t'[|t|] == TickStart(tick.now, tick.service) && Ticked(was.snap, tick, left.snap)
    ensures Current(t', run', ticks + [tick], rests + [left], left, tick.subscriptions)
  {
    var n, ticks' := |ticks|, ticks + [tick];
    forall j | 0 <= j < n ensures Follow(ticks', j, n) {
      assert Ended(t, ticks, j, tick.subscriptions);
    }
    LogTick(t, run, ticks, rests, t', run', tick, left);
    forall j | 0 <= j <= n ensures Ended(t', ticks', j, tick.subscriptions) {
      if j < n {
        assert Ended(t, ticks, j, tick.subscriptions);
      }
    }
  }

  // A subscription that is refused, or that finds the observer installed.
  lemma CurrentSubscribed(t: seq<Event>, run: seq<Monitor>, run': seq<Monitor>, ticks: seq<TickSpan>, rests: seq<Rest>,
                          now: Rest, subscriptions: seq<Subscription>, subscriptions': seq<Subscription>)
    requires Current(t, run, ticks, rests, now, subscriptions) && Accepts(t, run')
    requires subscriptions <= subscriptions' && (subscriptions' == [] <==> subscriptions == [])
    ensures Current(t, run', ticks, rests, now, subscriptions')
  {
    LogLater(t, run, ticks, rests, t, run');
    RecordOfPrefix(t, run, t, run', |t|);
    forall j | 0 <= j < |ticks| ensures Ended(t, ticks, j, subscriptions') {
      assert Ended(t, ticks, j, subscriptions);
    }
  }

  // The first subscription: no tick has done anything yet.
  lemma CurrentInstalled(run: seq<Monitor>, ticks: seq<TickSpan>, rests: seq<Rest>, was: Rest, t': seq<Event>,
                         run': seq<Monitor>, now: Rest, subscriptions': seq<Subscription>)
    requires Current([], run, ticks, rests, was, []) && Accepts(t', run') && t' != [] && subscriptions' != []
    requires Sound(now) && was.clock <= now.clock && run'[|t'|] == now.snap.record
    requires now.snap.record.phase == Seeding && now.snap.seed.lastAttempt == 0
    ensures Current(t', run', ticks, rests[|ticks| := now], now, subscriptions')
  {
    var n, rests' := |ticks|, rests[|ticks| := now];
    TimeNotNegative(run, ticks, rests);
    forall j | 0 <= j < n ensures ticks[j].subscriptions == [] && ticks[j].to == 0 && Ended(t', ticks, j, subscriptions') {
      assert Ended([], ticks, j, []) && Placed([], run, ticks, rests, j);
    }
    forall j | 0 <= j < n ensures Timed(ticks, rests', j) && Placed(t', run', ticks, rests', j) && Stepped(ticks, rests', j) {
      assert Timed(ticks, rests, j) && Placed([], run, ticks, rests, j);
    }
    forall j | 0 <= j <= n ensures Rested(ticks, rests', j) {
      assert Rested(ticks, rests, j);
    }
  }

  lemma TimeNotNegative(run: seq<Monitor>, ticks: seq<TickSpan>, rests: seq<Rest>)
    requires Log([], run, ticks, rests)
    ensures 0 <= TimeOf(ticks, |ticks|)
  {
    var n := |ticks|;
    if n > 0 {
      assert Rested(ticks, rests, n - 1) && Timed(ticks, rests, n - 1);
    }
  }
}
