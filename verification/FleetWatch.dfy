// The fleet observer of fleet_watch.cc: the ten-slot table, the seeding timers, the counted
// fast-poll subset, and the Tick that drives them. Each tick reads the fleet service once,
// as a Service value; the clock is read as often as the source reads it and never goes back.
module FleetWatch {
  import opened Options
  import opened FleetTrace

  const MANAGER_PROBE_INTERVAL_MS := 250
  const MANAGER_DISCOVERY_INTERVAL_MS := 5000
  const FAST_POLL_INTERVAL_MS := 250
  const FAST_POLL_BACKOFF_MS := 5000
  const FAST_POLL_PERIOD_MS := 30000
  const FAST_POLL_LIFETIME_MS := 24 * 60 * 60 * 1000
  const SEED_INTERVAL_MS := 1000
  const SEED_BACKOFF_INTERVAL_MS := 5000
  const SEED_FAST_PERIOD_MS := 30000
  const SEED_LIFETIME_MS := 120000
  const UNKNOWN_STATE := 0

  datatype ObservedFleet = ObservedFleet(
    fleet: nat, state: int, occupied: bool, fastPollStarted: int, fastPollExhausted: bool)
  {
    predicate FastPolling() { occupied && fastPollStarted != 0 }

    function Held(): Option<Entry> { if occupied then Some(Entry(fleet, state)) else None }

    function Spent(): Option<Entry> { if fastPollExhausted then Held() else None }
  }

  const EMPTY := ObservedFleet(0, UNKNOWN_STATE, false, 0, false)

  // A transition callback is an id, 0 standing for a null pointer. A predicate that returns
  // None is one that throws.
  datatype Subscription = Subscription(onTransition: nat, needsFastPoll: Option<int -> Option<bool>>)

  datatype ScanResult = ScanResult(managerAvailable: bool, topologyChanged: bool)

  type Table = s: seq<ObservedFleet> | |s| == SLOT_COUNT
    witness [EMPTY, EMPTY, EMPTY, EMPTY, EMPTY, EMPTY, EMPTY, EMPTY, EMPTY, EMPTY]

  ghost function ViewOf(s: Table): View { seq(SLOT_COUNT, i requires 0 <= i < SLOT_COUNT => s[i].Held()) }

  ghost function SpentOf(s: Table): View { seq(SLOT_COUNT, i requires 0 <= i < SLOT_COUNT => s[i].Spent()) }

  ghost function FastCount(s: seq<ObservedFleet>): nat {
    if s == [] then 0 else FastCount(s[..|s| - 1]) + if s[|s| - 1].FastPolling() then 1 else 0
  }

  lemma {:induction false} FastCountUpdate(s: seq<ObservedFleet>, i: nat, x: ObservedFleet)
    requires i < |s|
    ensures FastCount(s[i := x]) == FastCount(s) - (if s[i].FastPolling() then 1 else 0)
                                                 + (if x.FastPolling() then 1 else 0)
  {
    var n := |s| - 1;
    if i == n {
      assert s[i := x][..n] == s[..n];
    } else {
      FastCountUpdate(s[..n], i, x);
      assert s[i := x][..n] == s[..n][i := x];
    }
  }

  lemma {:induction false} FastCountZero(s: seq<ObservedFleet>)
    ensures FastCount(s) == 0 <==> forall i :: 0 <= i < |s| ==> !s[i].FastPolling()
  {
    if s != [] {
      var n := |s| - 1;
      FastCountZero(s[..n]);
      assert forall i :: 0 <= i < n ==> s[..n][i] == s[i];
    }
  }

  lemma NothingIsEmpty(s: Table)
    ensures ViewOf(s) == NOTHING <==> forall i: Slot :: !s[i].occupied
  {
    assert forall i: Slot :: ViewOf(s)[i] == s[i].Held() && NOTHING[i] == None;
  }

  predicate Wants(subscriptions: seq<Subscription>, state: int) {
    exists i :: 0 <= i < |subscriptions| && subscriptions[i].needsFastPoll.Some?
                && subscriptions[i].needsFastPoll.value(state) == Some(true)
  }

  predicate SameFleet(held: Option<Entry>, seen: Option<Entry>) {
    held.Some? && seen.Some? && held.value.fleet == seen.value.fleet
  }

  // Occupancy and, where occupied, fleet ids agree.
  predicate SameTopology(held: Option<Entry>, seen: Option<Entry>) {
    held.Some? == seen.Some? && (held.Some? ==> held.value.fleet == seen.value.fleet)
  }

  // A slot's fast polling began at or after time at, or has not been begun anew.
  predicate FastStartKept(was: ObservedFleet, left: ObservedFleet, at: int) {
    left.FastPolling() ==>
      left.fastPollStarted >= at || (was.FastPolling() && left.fastPollStarted == was.fastPollStarted)
  }

  // What one observation leaves in its slot.
  predicate Observed(was: ObservedFleet, left: ObservedFleet, entry: Entry, subscriptions: seq<Subscription>, at: int) {
    && left.Held() == Some(entry)
    && left.fastPollExhausted == (was.Held() == Some(entry) && was.fastPollExhausted)
    && (left.FastPolling() ==> !left.fastPollExhausted && Wants(subscriptions, entry.state))
    && (!left.fastPollExhausted && Wants(subscriptions, entry.state) && at > 0 ==> left.FastPolling())
    && FastStartKept(was, left, at)
    && (was.FastPolling() && left.FastPolling() && SameFleet(was.Held(), Some(entry)) ==>
          left.fastPollStarted == was.fastPollStarted)
  }

  // A slot is fast-polled exactly when some subscriber wants that and it has not run out.
  predicate Polls(left: ObservedFleet, subscriptions: seq<Subscription>) {
    left.FastPolling() <==> !left.fastPollExhausted && Wants(subscriptions, left.state)
  }

  // That fast polling ran out is remembered exactly as long as the slot holds the same.
  predicate SpentKept(was: ObservedFleet, left: ObservedFleet) {
    left.Spent() == if left.Held() == was.Held() then was.Spent() else None
  }

  // What an unrestricted scan from time at on leaves in a slot.
  predicate Rescanned(was: ObservedFleet, left: ObservedFleet, fleet: Option<Entry>,
                      subscriptions: seq<Subscription>, at: int) {
    left.Held() == fleet && SpentKept(was, left) && (fleet.Some? && at > 0 ==> Polls(left, subscriptions))
  }

  // What a pass leaves in a slot that it has reached.
  predicate SlotVisited(was: ObservedFleet, left: ObservedFleet, fleet: Option<Entry>, onlyFast: bool,
                        subscriptions: seq<Subscription>, at: int) {
    && FastStartKept(was, left, at)
    && if !onlyFast || (was.FastPolling() && fleet.Some?) then Rescanned(was, left, fleet, subscriptions, at) else left == was
  }

  // A fast-polled slot that turns out to hold another fleet.
  predicate ChangedHands(was: ObservedFleet, fleet: Option<Entry>) {
    was.FastPolling() && fleet.Some? && !SameFleet(was.Held(), fleet)
  }

  // Only what a Monitor publishes or knows to be spent has moved.
  predicate SameSeeding(m: Monitor, n: Monitor) {
    n == m.(published := n.published, spent := n.spent, due := n.due)
  }

  // The subscribers, and whether the screen-update observer was installed for them.
  datatype Registry = Registry(subscriptions: seq<Subscription>, observerInstalled: bool)

  // The s_seed_* statics.
  datatype Seed = Seed(
    pending: bool, hasObservation: bool, managerBacked: bool, finalizeCandidate: bool,
    started: int, firstObserved: int, lastChange: int, lastAttempt: int)

  // The remaining statics: polling timers, the probe cursor and the count of fast-polled slots.
  datatype Polling = Polling(
    lastManagerProbe: int, lastManagerDiscovery: int, lastFastPoll: int, probeSlot: Slot, fastCount: int)

  const IDLE_SEED := Seed(false, false, false, false, 0, 0, 0, 0)
  const IDLE_POLLING := Polling(0, 0, 0, 0, 0)

  // The fast-poll timer is set back only for the one slot that is fast-polled.
  predicate Rearmed(was: Polling, left: Polling, slot: ObservedFleet) {
    left.lastFastPoll != was.lastFastPoll ==> left.fastCount == 1 && slot.FastPolling()
  }

  // What one observation does to the seeding state when it does not restart it.
  predicate SeedAfter(was: Seed, left: Seed, sameState: bool, at: int) {
    if !was.pending || sameState then left == was else
    && left.lastChange >= at
    && left == was.(hasObservation := true, finalizeCandidate := false, lastChange := left.lastChange,
                    firstObserved := if was.hasObservation then was.firstObserved else left.lastChange)
  }

  // What a whole pass over the slots does to the seeding state when it does not restart it.
  predicate SeedGrown(was: Seed, left: Seed, at: int) {
    left == was ||
    (&& was.pending && left.hasObservation && left.lastChange >= at
     && left == was.(hasObservation := true, finalizeCandidate := left.finalizeCandidate,
                     firstObserved := left.firstObserved, lastChange := left.lastChange)
     && (left.finalizeCandidate ==> was.finalizeCandidate)
     && (if was.hasObservation then left.firstObserved == was.firstObserved else left.firstObserved >= at))
  }

  // No tick has looked at a live fleet since the seeding began.
  predicate AtRest(polling: Polling) {
    polling.lastManagerProbe == 0 && polling.lastManagerDiscovery == 0 && polling.probeSlot == 0
  }

  // The polling timers as a baseline sets them.
  predicate Opened(polling: Polling, now: int) {
    polling.lastManagerProbe == now && polling.probeSlot == 0 && polling.lastFastPoll in {0, now}
  }

  // Only what some subscriber wants fast-polled is.
  ghost predicate AllWanted(table: Table, subscriptions: seq<Subscription>) {
    forall i: Slot :: table[i].FastPolling() ==> Wants(subscriptions, table[i].state)
  }

  predicate PollingKept(was: Polling, left: Polling) {
    && left == was.(fastCount := left.fastCount, lastFastPoll := left.lastFastPoll)
    && (left.lastFastPoll == was.lastFastPoll || left.lastFastPoll == 0)
  }

  // After a restart every slot is free to be fast-polled and the next tick scans.
  ghost predicate AfterRestart(seed: Seed, table: Table, at: int) {
    && seed.pending && seed.lastAttempt == 0
    && forall i: Slot :: !table[i].fastPollExhausted && (table[i].FastPolling() ==> table[i].fastPollStarted >= at)
  }

  predicate SameTick(m: Monitor, n: Monitor) {
    n.service == m.service && n.ticks == m.ticks
  }

  // A restart in the middle of a fast-poll pass, after the fleet that caused it was recorded.
  ghost predicate Restarted(seed: Seed, table: Table, m: Monitor, was: Monitor, at: int) {
    && AfterRestart(seed, table, at) && !seed.managerBacked && seed.hasObservation && !seed.finalizeCandidate
    && seed.lastChange >= at && seed.firstObserved >= at
    && m.phase == Seeding && SameTick(was, m) && !m.candidate && !m.armed && m.firstScan.None? && m.lastChange.None?
  }

  // What a scan of every slot does to the seeding state while seeding, from time at on.
  ghost predicate SeedScanned(was: Seed, left: Seed, view: View, fleets: View, at: int) {
    && left.pending && left.started == was.started && left.lastAttempt == was.lastAttempt
    && (left.finalizeCandidate ==> was.finalizeCandidate)
    && (was.hasObservation ==> left.hasObservation && left.firstObserved == was.firstObserved)
    && (!was.hasObservation && left.hasObservation ==> left.firstObserved >= at)
    && (view == fleets ==> left == was)
    && (view != fleets ==> left.hasObservation && left.lastChange >= at)
  }

  predicate ScanRemembered(m: Monitor, n: Monitor, service: Service, at: int) {
    && SameTick(m, n) && n.service == service && n.phase == m.phase == Seeding
    && n.candidate == m.candidate && n.armed == m.armed && n.lastScan == service.fleets
    && n.firstScan == if m.firstScan.None? then Some(at) else m.firstScan
  }

  // What one tick achieves while seeding: it scans when a scan is due, which leaves every slot
  // fast-polled exactly when that is wanted and has not run out; it sets the candidate after a
  // quiet period, announces the baseline once the candidate stands and the table
  // still is what the service reports, and gives up only when no service was ever seen.
  ghost predicate SeedingProgress(was: Seed, table: Table, left: Seed, table': Table, m: Monitor, service: Service,
                                  subscriptions: seq<Subscription>, now: int) {
    var view, view' := ViewOf(table), ViewOf(table');
    var started := if was.started == 0 then now else was.started;
    var seed := was.(started := started);
    var due := FleetWatch.AttemptDue(seed, now);
    var steady := was.hasObservation && service.available && view == service.fleets
                  && now - was.lastChange >= STABILIZATION_MS;
    && (due && was.managerBacked && !service.available ==> left == IDLE_SEED.(pending := true, started := left.started))
    && (due && service.available ==>
          && view' == service.fleets
          && forall i: Slot :: Rescanned(table[i], table'[i], service.fleets[i], subscriptions, now))
    && (steady && !was.finalizeCandidate ==> left.pending && left.finalizeCandidate)
    && (steady && was.finalizeCandidate ==> !left.pending)
    && (!left.pending ==>
          || (m.phase == Live && m.published == service.fleets && service.available)
          || (m.phase == Dormant && !was.hasObservation && now - started >= SEED_LIFETIME_MS))
  }

  // What the periodic scan of seeding does when it does not reset.
  ghost predicate Attempted(was: Seed, table: Table, left: Seed, table': Table, service: Service,
                            subscriptions: seq<Subscription>, now: int) {
    && left.pending && left.started == was.started && (was.hasObservation ==> left.hasObservation)
    && left.lastAttempt == (if FleetWatch.AttemptDue(was, now) then now else was.lastAttempt)
    && (!service.available ==> left == was.(lastAttempt := left.lastAttempt))
    && (FleetWatch.AttemptDue(was, now) && service.available ==>
          && left.hasObservation && ViewOf(table') == service.fleets
          && forall i: Slot :: Rescanned(table[i], table'[i], service.fleets[i], subscriptions, now))
    && (ViewOf(table) == service.fleets && was.hasObservation ==>
          left == was.(lastAttempt := left.lastAttempt) && ViewOf(table') == service.fleets)
  }

  // What setting or confirming the candidate does.
  ghost predicate Finished(was: Seed, table: Table, left: Seed, table': Table, service: Service,
                           subscriptions: seq<Subscription>, now: int) {
    var quiet := now - was.lastChange >= STABILIZATION_MS;
    var forced := now - was.firstObserved >= MAX_STABILIZATION_MS;
    && (ViewOf(table) == service.fleets ==> ViewOf(table') == service.fleets)
    && (left.pending ==> left.started == was.started && left.lastAttempt == was.lastAttempt && left.hasObservation)
    && (left.pending && ViewOf(table) == service.fleets ==> left.lastChange == was.lastChange)
    && (forall i: Slot ::
          table'[i] == table[i] || Rescanned(table[i], table'[i], service.fleets[i], subscriptions, now))
    && (!was.finalizeCandidate ==> table' == table && left == was.(finalizeCandidate := quiet || forced))
    && (!left.pending == (was.finalizeCandidate && service.available
                          && (forced || (quiet && ViewOf(table) == service.fleets))))
  }

  // What one tick leaves of the timers while seeding: an attempt is made when due, an observed
  // service that is lost resets, and what agrees with the service is left as it is.
  ghost predicate SeedPace(was: Seed, table: Table, left: Seed, polling': Polling, table': Table, m: Monitor,
                           service: Service, now: int) {
    var seed := was.(started := if was.started == 0 then now else was.started);
    var due := FleetWatch.AttemptDue(seed, now);
    && (if due && was.managerBacked && !service.available then
          left == IDLE_SEED.(pending := true, started := left.started)
        else left.pending ==>
          left.started == seed.started && left.lastAttempt == if due then now else was.lastAttempt)
    && (due && service.available ==> ViewOf(table') == service.fleets && (left.pending ==> left.hasObservation))
    && (was.hasObservation && service.available && ViewOf(table) == service.fleets ==>
          && ViewOf(table') == service.fleets
          && (left.pending ==> left.hasObservation && left.lastChange == was.lastChange))
    && (!was.hasObservation && !service.available && left.pending ==>
          !left.hasObservation && now - seed.started < SEED_LIFETIME_MS)
    && (!left.pending && m.phase == Live ==> Opened(polling', now))
    && (!left.pending && m.phase == Dormant ==> polling'.lastManagerDiscovery == now)
  }

  lemma FinishedPace(was: Seed, table: Table, tried: Seed, between: Table, left: Seed, polling': Polling, table': Table,
                     m: Monitor, service: Service, subscriptions: seq<Subscription>, now: int)
    requires var seed := was.(started := if was.started == 0 then now else was.started);
             && Attempted(seed, table, tried, between, service, subscriptions, now)
             && !(FleetWatch.AttemptDue(seed, now) && was.managerBacked && !service.available)
    requires tried.hasObservation && Finished(tried, between, left, table', service, subscriptions, now)
    requires !left.pending ==> m.phase == Live && Opened(polling', now)
    ensures SeedPace(was, table, left, polling', table', m, service, now)
  {
  }

  // The tick in which an observed service turns out to be lost.
  lemma LostTick(was: Seed, table: Table, left: Seed, polling': Polling, table': Table, m: Monitor, service: Service,
                 subscriptions: seq<Subscription>, now: int)
    requires var seed := was.(started := if was.started == 0 then now else was.started);
             FleetWatch.AttemptDue(seed, now) && was.managerBacked && !service.available
    requires was.managerBacked ==> was.hasObservation
    requires left == IDLE_SEED.(pending := true, started := left.started)
    ensures SeedingProgress(was, table, left, table', m, service, subscriptions, now)
    ensures SeedPace(was, table, left, polling', table', m, service, now)
  {
  }

  // A tick that has seen no service yet.
  lemma UnseenTick(was: Seed, table: Table, tried: Seed, left: Seed, polling': Polling, table': Table, m: Monitor,
                   service: Service, subscriptions: seq<Subscription>, now: int)
    requires var seed := was.(started := if was.started == 0 then now else was.started);
             && Attempted(seed, table, tried, table', service, subscriptions, now)
             && !(FleetWatch.AttemptDue(seed, now) && was.managerBacked && !service.available)
             && left == tried.(pending := now - seed.started < SEED_LIFETIME_MS)
    requires !tried.hasObservation
    requires !left.pending ==> m.phase == Dormant && polling'.lastManagerDiscovery == now
    ensures SeedingProgress(was, table, left, table', m, service, subscriptions, now)
    ensures SeedPace(was, table, left, polling', table', m, service, now)
  {
  }

  lemma FinishedProgress(was: Seed, table: Table, tried: Seed, between: Table, left: Seed, table': Table, m: Monitor,
                         service: Service, subscriptions: seq<Subscription>, now: int)
    requires var seed := was.(started := if was.started == 0 then now else was.started);
             && Attempted(seed, table, tried, between, service, subscriptions, now)
             && !(FleetWatch.AttemptDue(seed, now) && was.managerBacked && !service.available)
    requires tried.hasObservation && Finished(tried, between, left, table', service, subscriptions, now)
    requires !left.pending ==> m.phase == Live && m.published == service.fleets && service.available
    ensures SeedingProgress(was, table, left, table', m, service, subscriptions, now)
  {
  }

  function Expired(was: ObservedFleet, now: int): ObservedFleet {
    if was.FastPolling() && now - was.fastPollStarted >= FAST_POLL_LIFETIME_MS
    then was.(fastPollStarted := 0, fastPollExhausted := true) else was
  }

  // No slot has been fast-polled for a day.
  ghost predicate NoneOverdue(table: Table, now: int) {
    forall i: Slot :: table[i].FastPolling() ==> now - table[i].fastPollStarted < FAST_POLL_LIFETIME_MS
  }

  predicate FastPollDue(was: ObservedFleet, polling: Polling, now: int) {
    && was.FastPolling() && now - was.fastPollStarted < FAST_POLL_PERIOD_MS
    && (polling.lastFastPoll == 0 || now - polling.lastFastPoll >= FAST_POLL_INTERVAL_MS)
  }

  // Whether a slot is fast-polled once the tick has probed it, or left it alone.
  predicate PolledAfterProbe(was: ObservedFleet, probed: bool, fleet: Option<Entry>, subscriptions: seq<Subscription>) {
    if probed && fleet.Some? then !(was.Held() == fleet && was.fastPollExhausted) && Wants(subscriptions, fleet.value.state)
    else was.FastPolling()
  }

  // ... and has been for less than half a minute.
  predicate RecentAfterProbe(was: ObservedFleet, probed: bool, fleet: Option<Entry>, subscriptions: seq<Subscription>,
                             now: int) {
    && PolledAfterProbe(was, probed, fleet, subscriptions)
    && (was.FastPolling() ==> now - was.fastPollStarted < FAST_POLL_PERIOD_MS)
  }

  // Whether the fast-poll scan of a tick is due.
  ghost predicate FastScanDue(table: Table, polling: Polling, fleets: View, probe: bool,
                              subscriptions: seq<Subscription>, now: int) {
    var recent := exists i: Slot ::
                    RecentAfterProbe(table[i], probe && i == polling.probeSlot, fleets[i], subscriptions, now);
    polling.lastFastPoll == 0
    || now - polling.lastFastPoll >= if recent then FAST_POLL_INTERVAL_MS else FAST_POLL_BACKOFF_MS
  }

  // When a tick after seeding starts the seeding anew: the service is found again or lost, or
  // the probed slot, or a slot whose fast poll is due, turns out to hold another fleet.
  ghost predicate LiveRestarts(was: Seed, polling: Polling, table: Table, service: Service,
                               subscriptions: seq<Subscription>, now: int) {
    var slot, probe := polling.probeSlot, was.managerBacked && FleetWatch.ProbeDue(polling, now);
    || (!was.managerBacked && service.available && FleetWatch.DiscoveryDue(polling, now))
    || (probe && (!service.available || !SameTopology(table[slot].Held(), service.fleets[slot])))
    || (&& service.available && FastScanDue(table, polling, service.fleets, probe, subscriptions, now)
        && exists i: Slot :: ChangedHands(Expired(table[i], now), service.fleets[i]))
  }

  // What one tick achieves after seeding: it restarts exactly when the above says so;
  // otherwise the probed slot and every slot whose fast poll is due hold what the service
  // reports. A slot whose fast polling ran out and that holds the same stays exhausted exactly
  // when there is no restart. The clock value 0 stands for no time, as it does in the timers.
  ghost predicate LiveProgress(was: Seed, polling: Polling, table: Table, left: Seed, table': Table,
                               service: Service, subscriptions: seq<Subscription>, now: int) {
    var slot := polling.probeSlot;
    var probe := was.managerBacked && FleetWatch.ProbeDue(polling, now);
    && (!was.managerBacked && service.available && FleetWatch.DiscoveryDue(polling, now) ==> left.pending)
    && (probe && (!service.available || !SameTopology(table[slot].Held(), service.fleets[slot])) ==> left.pending)
    && (now > 0 ==> (left.pending <==> LiveRestarts(was, polling, table, service, subscriptions, now)))
    && (left.pending ==> AfterRestart(left, table', now))
    && (forall i: Slot :: table[i].Spent().Some? && table[i].Held() == service.fleets[i] ==>
          table'[i].Spent() == if left.pending then None else table[i].Spent())
    && (!left.pending ==>
          && (probe ==> table'[slot].Held() == service.fleets[slot])
          && (service.available ==>
                forall i: Slot :: FastPollDue(table[i], polling, now) && service.fleets[i].Some? ==>
                  table'[i].Held() == service.fleets[i]))
  }

  // Whether the fast-poll scan is due, from the table as the probe leaves it.
  ghost predicate FastDue(table: Table, polling: Polling, now: int) {
    var recent := exists i: Slot :: table[i].FastPolling() && now - table[i].fastPollStarted < FAST_POLL_PERIOD_MS;
    polling.lastFastPoll == 0
    || now - polling.lastFastPoll >= if recent then FAST_POLL_INTERVAL_MS else FAST_POLL_BACKOFF_MS
  }

  ghost predicate FastScanRestarts(table: Table, polling: Polling, service: Service, now: int) {
    && service.available && FastDue(table, polling, now)
    && exists i: Slot :: ChangedHands(Expired(table[i], now), service.fleets[i])
  }

  lemma FastDueUnprobed(table: Table, polling: Polling, fleets: View, subscriptions: seq<Subscription>, now: int)
    ensures FastDue(table, polling, now) <==> FastScanDue(table, polling, fleets, false, subscriptions, now)
  {
    assert forall i: Slot ::
        RecentAfterProbe(table[i], false && i == polling.probeSlot, fleets[i], subscriptions, now)
        == (table[i].FastPolling() && now - table[i].fastPollStarted < FAST_POLL_PERIOD_MS);
  }

  // What a probe that does not restart leaves in its slot.
  predicate Probed(was: ObservedFleet, left: ObservedFleet, fleet: Option<Entry>, subscriptions: seq<Subscription>, at: int) {
    && SameTopology(was.Held(), fleet)
    && if fleet.Some? then Observed(was, left, fleet.value, subscriptions, at) else left == was
  }

  lemma RecentWhenProbed(was: ObservedFleet, left: ObservedFleet, fleet: Option<Entry>, subscriptions: seq<Subscription>,
                         now: int, at: int)
    requires Probed(was, left, fleet, subscriptions, at) && 0 < now <= at
    ensures RecentAfterProbe(was, true, fleet, subscriptions, now)
            <==> left.FastPolling() && now - left.fastPollStarted < FAST_POLL_PERIOD_MS
  {
  }

  lemma FastDueProbed(table: Table, left: ObservedFleet, polling: Polling, fleets: View,
                      subscriptions: seq<Subscription>, now: int, at: int)
    requires Probed(table[polling.probeSlot], left, fleets[polling.probeSlot], subscriptions, at) && 0 < now <= at
    ensures FastDue(table[polling.probeSlot := left], polling, now)
            <==> FastScanDue(table, polling, fleets, true, subscriptions, now)
  {
    var p := polling.probeSlot;
    var table' := table[p := left];
    RecentWhenProbed(table[p], left, fleets[p], subscriptions, now, at);
    assert forall i: Slot ::
        RecentAfterProbe(table[i], true && i == p, fleets[i], subscriptions, now)
        == (table'[i].FastPolling() && now - table'[i].fastPollStarted < FAST_POLL_PERIOD_MS);
  }

  lemma {:induction false} OneFastPolled(s: seq<ObservedFleet>, i: nat, j: nat)
    requires FastCount(s) == 1 && i < |s| && j < |s| && s[i].FastPolling() && s[j].FastPolling()
    ensures i == j
  {
    var others := s[i := EMPTY];
    assert others[j] == if i == j then EMPTY else s[j];
    FastCountUpdate(s, i, EMPTY);
    FastCountZero(others);
  }

  // A probe may begin fast polling in its own slot and so make the scan due, but then that is
  // the only fast-polled slot; the probed slot itself never changes hands.
  lemma RestartAfterProbe(table: Table, left: ObservedFleet, polling: Polling, polling': Polling, service: Service,
                          subscriptions: seq<Subscription>, now: int, at: int)
    requires Probed(table[polling.probeSlot], left, service.fleets[polling.probeSlot], subscriptions, at) && 0 < now <= at
    requires polling'.lastFastPoll == polling.lastFastPoll
             || (left.FastPolling() && FastCount(table[polling.probeSlot := left]) == 1)
    ensures FastScanRestarts(table[polling.probeSlot := left], polling', service, now)
            <==> (&& service.available && FastScanDue(table, polling, service.fleets, true, subscriptions, now)
                  && exists i: Slot :: ChangedHands(Expired(table[i], now), service.fleets[i]))
  {
    var p := polling.probeSlot;
    var table' := table[p := left];
    FastDueProbed(table, left, polling, service.fleets, subscriptions, now, at);
    forall i: Slot
      ensures ChangedHands(Expired(table'[i], now), service.fleets[i])
              <==> ChangedHands(Expired(table[i], now), service.fleets[i])
      ensures ChangedHands(Expired(table[i], now), service.fleets[i]) ==> polling'.lastFastPoll == polling.lastFastPoll
    {
      NeverChangesHands(table[p], left, service.fleets[p], subscriptions, now, at);
      if i != p && table[i].FastPolling() && polling'.lastFastPoll != polling.lastFastPoll {
        OneFastPolled(table', i, p);
      }
    }
  }

  lemma NeverChangesHands(was: ObservedFleet, left: ObservedFleet, fleet: Option<Entry>, subscriptions: seq<Subscription>,
                          now: int, at: int)
    requires Probed(was, left, fleet, subscriptions, at)
    ensures !ChangedHands(Expired(was, now), fleet) && !ChangedHands(Expired(left, now), fleet)
  {
  }

  // What the fast-poll part of a tick does, from the table as the probe leaves it.
  ghost predicate FastProgress(table: Table, polling: Polling, left: Seed, table': Table, service: Service, now: int) {
    && (left.pending <==> FastScanRestarts(table, polling, service, now))
    && (left.pending ==> AfterRestart(left, table', now))
    && (!left.pending ==> forall i: Slot :: table[i].Spent().Some? && table[i].Held() == service.fleets[i] ==>
          table'[i].Spent() == table[i].Spent())
    && (service.available && !left.pending ==>
          forall i: Slot :: (FastPollDue(table[i], polling, now) && service.fleets[i].Some?)
                            || table[i].Held() == service.fleets[i] ==>
            table'[i].Held() == service.fleets[i])
  }

  // No scan: nothing but expiry happened.
  lemma FastIdle(table: Table, polling: Polling, left: Seed, table': Table, service: Service, now: int)
    requires !left.pending && forall i: Slot :: table'[i] == Expired(table[i], now)
    requires FastDue(table, polling, now) && service.available ==> forall i: Slot :: !table'[i].FastPolling()
    ensures FastProgress(table, polling, left, table', service, now)
    ensures NoneOverdue(table', now)
  {
    forall i: Slot | FastPollDue(table[i], polling, now) ensures FastDue(table, polling, now) && table'[i].FastPolling() {
    }
  }

  lemma FastScanned(table: Table, expired: Table, polling: Polling, left: Seed, table': Table, service: Service,
                    subscriptions: seq<Subscription>, now: int, at: int)
    requires (forall i: Slot :: expired[i] == Expired(table[i], now)) && now <= at
    requires service.available && FastDue(table, polling, now)
    requires left.pending <==> exists i: Slot :: ChangedHands(expired[i], service.fleets[i])
    requires left.pending ==> AfterRestart(left, table', at)
    requires !left.pending ==>
               forall i: Slot :: SlotVisited(expired[i], table'[i], service.fleets[i], true, subscriptions, at)
    ensures FastProgress(table, polling, left, table', service, now)
  {
    assert forall i: Slot :: ChangedHands(expired[i], service.fleets[i])
                             == ChangedHands(Expired(table[i], now), service.fleets[i]);
  }

  // Expiry does not touch what decides whether a scan is due.
  lemma ExpiredDue(table: Table, expired: Table, polling: Polling, now: int, fastPeriod: bool)
    requires forall i: Slot :: expired[i] == Expired(table[i], now)
    requires fastPeriod <==>
               exists i: Slot :: expired[i].FastPolling() && now - expired[i].fastPollStarted < FAST_POLL_PERIOD_MS
    ensures FastDue(table, polling, now) <==>
              || polling.lastFastPoll == 0
              || now - polling.lastFastPoll >= if fastPeriod then FAST_POLL_INTERVAL_MS else FAST_POLL_BACKOFF_MS
  {
    assert forall i: Slot :: (table[i].FastPolling() && now - table[i].fastPollStarted < FAST_POLL_PERIOD_MS)
                             == (expired[i].FastPolling() && now - expired[i].fastPollStarted < FAST_POLL_PERIOD_MS);
  }

  // ---- What a tick after seeding leaves of the timers, when it does not restart ----

  predicate Recent(was: ObservedFleet, now: int) {
    was.FastPolling() && now - was.fastPollStarted < FAST_POLL_PERIOD_MS
  }

  // A slot that was looked at.
  predicate Refreshed(was: ObservedFleet, left: ObservedFleet, fleet: Option<Entry>, subscriptions: seq<Subscription>,
                      now: int) {
    && left.Held() == fleet && SameFleet(was.Held(), fleet) && FastStartKept(was, left, now)
    && (now > 0 ==> Polls(left, subscriptions))
    && (left.fastPollExhausted ==>
          || (was.Held() == fleet && was.fastPollExhausted)
          || (was.FastPolling() && now - was.fastPollStarted >= FAST_POLL_LIFETIME_MS))
  }

  predicate SlotPaced(was: ObservedFleet, left: ObservedFleet, fleet: Option<Entry>, subscriptions: seq<Subscription>,
                      now: int) {
    left == Expired(was, now) || Refreshed(was, left, fleet, subscriptions, now)
  }

  // The fast-poll part: its timer moves only with a scan, which refreshes the recent slots.
  ghost predicate FastPace(table: Table, polling: Polling, table': Table, polling': Polling, service: Service,
                           subscriptions: seq<Subscription>, now: int) {
    && polling' == polling.(fastCount := polling'.fastCount, lastFastPoll := polling'.lastFastPoll)
    && polling'.lastFastPoll in {polling.lastFastPoll, 0, now}
    && (forall i: Slot :: SlotPaced(table[i], table'[i], service.fleets[i], subscriptions, now))
    && (service.available ==>
          forall i: Slot :: Recent(table[i], now) && service.fleets[i].Some? ==>
            table'[i].Held() == service.fleets[i] || polling'.lastFastPoll == polling.lastFastPoll)
  }

  lemma IdlePace(table: Table, polling: Polling, table': Table, polling': Polling, service: Service,
                 subscriptions: seq<Subscription>, now: int)
    requires forall i: Slot :: table'[i] == Expired(table[i], now)
    requires polling' == polling.(fastCount := polling'.fastCount, lastFastPoll := polling'.lastFastPoll)
    requires polling'.lastFastPoll == polling.lastFastPoll || (polling'.lastFastPoll == now && !service.available)
    ensures FastPace(table, polling, table', polling', service, subscriptions, now)
  {
  }

  lemma ScannedPace(table: Table, expired: Table, polling: Polling, table': Table, polling': Polling, service: Service,
                    subscriptions: seq<Subscription>, now: int, at: int)
    requires (forall i: Slot :: expired[i] == Expired(table[i], now)) && now <= at
    requires polling' == polling.(fastCount := polling'.fastCount, lastFastPoll := polling'.lastFastPoll)
    requires polling'.lastFastPoll in {0, now}
    requires forall i: Slot :: SlotVisited(expired[i], table'[i], service.fleets[i], true, subscriptions, at)
    requires forall i: Slot :: !ChangedHands(expired[i], service.fleets[i])
    ensures FastPace(table, polling, table', polling', service, subscriptions, now)
  {
    forall i: Slot ensures SlotPaced(table[i], table'[i], service.fleets[i], subscriptions, now) {
      VisitedPaced(table[i], table'[i], service.fleets[i], subscriptions, now, at);
    }
  }

  lemma VisitedPaced(was: ObservedFleet, left: ObservedFleet, fleet: Option<Entry>, subscriptions: seq<Subscription>,
                     now: int, at: int)
    requires SlotVisited(Expired(was, now), left, fleet, true, subscriptions, at) && now <= at
    requires !ChangedHands(Expired(was, now), fleet)
    ensures SlotPaced(was, left, fleet, subscriptions, now)
  {
  }

  lemma ProbedPaced(was: ObservedFleet, probed: ObservedFleet, left: ObservedFleet, fleet: Option<Entry>,
                    subscriptions: seq<Subscription>, now: int, at: int)
    requires Probed(was, probed, fleet, subscriptions, at) && now <= at
    requires SlotPaced(probed, left, fleet, subscriptions, now)
    ensures SlotPaced(was, left, fleet, subscriptions, now)
  {
  }

  // The whole tick: the timers that it may have moved, the cursor, and every slot.
  ghost predicate LivePace(was: Seed, polling: Polling, table: Table, left: Seed, polling': Polling, table': Table,
                           service: Service, subscriptions: seq<Subscription>, now: int) {
    var probe := was.managerBacked && FleetWatch.ProbeDue(polling, now);
    var discovery := !was.managerBacked && FleetWatch.DiscoveryDue(polling, now);
    !left.pending ==>
      && left.managerBacked == was.managerBacked
      && polling'.lastManagerProbe == (if probe then now else polling.lastManagerProbe)
      && polling'.probeSlot == (if probe then (polling.probeSlot + 1) % SLOT_COUNT else polling.probeSlot)
      && polling'.lastManagerDiscovery == (if discovery then now else polling.lastManagerDiscovery)
      && polling'.lastFastPoll in {polling.lastFastPoll, 0, now}
      && (forall i: Slot :: SlotPaced(table[i], table'[i], service.fleets[i], subscriptions, now))
      && (service.available ==>
            forall i: Slot :: Recent(table[i], now) && service.fleets[i].Some? ==>
              table'[i].Held() == service.fleets[i] || polling'.lastFastPoll in {polling.lastFastPoll, 0})
  }

  lemma UnprobedPace(was: Seed, polling: Polling, between: Polling, table: Table, left: Seed, polling': Polling,
                     table': Table, service: Service, subscriptions: seq<Subscription>, now: int)
    requires !(was.managerBacked && FleetWatch.ProbeDue(polling, now))
    requires between == polling.(lastManagerDiscovery :=
                                   if !was.managerBacked && FleetWatch.DiscoveryDue(polling, now) then now
                                   else polling.lastManagerDiscovery)
    requires !left.pending ==>
               && left.managerBacked == was.managerBacked
               && FastPace(table, between, table', polling', service, subscriptions, now)
    ensures LivePace(was, polling, table, left, polling', table', service, subscriptions, now)
  {
  }

  lemma ProbedPace(was: Seed, polling: Polling, table: Table, probed: ObservedFleet, between: Polling, left: Seed,
                   polling': Polling, table': Table, service: Service, subscriptions: seq<Subscription>, now: int, at: int)
    requires was.managerBacked && FleetWatch.ProbeDue(polling, now) && now <= at
    requires Probed(table[polling.probeSlot], probed, service.fleets[polling.probeSlot], subscriptions, at)
    requires between == polling.(lastManagerProbe := now, probeSlot := (polling.probeSlot + 1) % SLOT_COUNT,
                                 fastCount := between.fastCount, lastFastPoll := between.lastFastPoll)
    requires between.lastFastPoll == polling.lastFastPoll
             || (&& between.lastFastPoll == 0 && probed.FastPolling()
                 && FastCount(table[polling.probeSlot := probed]) == 1)
    requires !left.pending ==>
               && left.managerBacked == was.managerBacked
               && FastPace(table[polling.probeSlot := probed], between, table', polling', service, subscriptions, now)
    ensures LivePace(was, polling, table, left, polling', table', service, subscriptions, now)
  {
    if !left.pending {
      var p := polling.probeSlot;
      var between' := table[p := probed];
      ProbedPaced(table[p], probed, table'[p], service.fleets[p], subscriptions, now, at);
      forall i: Slot | service.available && Recent(table[i], now) && service.fleets[i].Some?
        ensures table'[i].Held() == service.fleets[i] || polling'.lastFastPoll in {polling.lastFastPoll, 0}
      {
        if i == p {
          assert probed.Held() == service.fleets[p];
          assert SlotPaced(probed, table'[p], service.fleets[p], subscriptions, now);
        }
      }
    }
  }

  lemma RestartedProgress(was: Seed, polling: Polling, table: Table, left: Seed, table': Table, service: Service,
                          subscriptions: seq<Subscription>, now: int)
    requires AfterRestart(left, table', now)
    requires || (!was.managerBacked && service.available && FleetWatch.DiscoveryDue(polling, now))
             || (&& was.managerBacked && FleetWatch.ProbeDue(polling, now)
                 && (!service.available
                     || !SameTopology(table[polling.probeSlot].Held(), service.fleets[polling.probeSlot])))
    ensures LiveProgress(was, polling, table, left, table', service, subscriptions, now)
  {
  }

  lemma UnprobedProgress(was: Seed, polling: Polling, polling': Polling, table: Table, left: Seed, table': Table,
                         service: Service, subscriptions: seq<Subscription>, now: int)
    requires !(was.managerBacked && FleetWatch.ProbeDue(polling, now))
    requires !(!was.managerBacked && service.available && FleetWatch.DiscoveryDue(polling, now))
    requires polling'.lastFastPoll == polling.lastFastPoll
    requires FastProgress(table, polling', left, table', service, now)
    ensures LiveProgress(was, polling, table, left, table', service, subscriptions, now)
  {
    FastDueUnprobed(table, polling, service.fleets, subscriptions, now);
  }

  lemma ProbedProgress(was: Seed, polling: Polling, table: Table, probed: ObservedFleet, polling': Polling,
                       left: Seed, table': Table, service: Service, subscriptions: seq<Subscription>, now: int, at: int)
    requires was.managerBacked && FleetWatch.ProbeDue(polling, now) && service.available && now <= at
    requires Probed(table[polling.probeSlot], probed, service.fleets[polling.probeSlot], subscriptions, at)
    requires polling'.lastFastPoll == polling.lastFastPoll
             || (&& polling'.lastFastPoll == 0 && probed.FastPolling()
                 && FastCount(table[polling.probeSlot := probed]) == 1)
    requires FastProgress(table[polling.probeSlot := probed], polling', left, table', service, now)
    ensures LiveProgress(was, polling, table, left, table', service, subscriptions, now)
  {
    var between := table[polling.probeSlot := probed];
    if now > 0 {
      RestartAfterProbe(table, probed, polling, polling', service, subscriptions, now, at);
    }
    assert forall i: Slot :: table[i].Held() == service.fleets[i] ==> between[i].Spent() == table[i].Spent();
  }

  // A pass that has visited the first n slots without a restart.
  ghost predicate Passed(table: Table, seed: Seed, table': Table, seed': Seed, fleets: View, onlyFast: bool,
                         subscriptions: seq<Subscription>, at: int, n: int) {
    && SeedGrown(seed, seed', at)
    && ((forall i: Slot :: table[i].Held() == fleets[i]) ==> seed' == seed)
    && (forall i: Slot :: seed'.pending && table'[i].Held() != table[i].Held() ==>
          seed'.hasObservation && seed'.lastChange >= at)
    && (forall i: Slot :: if i < n then SlotVisited(table[i], table'[i], fleets[i], onlyFast, subscriptions, at)
                          else table'[i] == table[i])
  }

  // What the first pass of a scan leaves of the seeding state.
  predicate TopologyNoted(was: Seed, left: Seed, topologyChanged: bool, at: int) {
    if topologyChanged && was.hasObservation then
      left.lastChange >= at && left == was.(lastChange := left.lastChange, finalizeCandidate := false)
    else left == was
  }

  lemma SeedScanOutcome(table: Table, seed: Seed, fleets: View, topologyChanged: bool, noted: Seed,
                        table': Table, grown: Seed, subscriptions: seq<Subscription>, at: int)
    requires seed.pending && (!seed.hasObservation ==> ViewOf(table) == NOTHING)
    requires topologyChanged <==> exists i: Slot :: !SameTopology(table[i].Held(), fleets[i])
    requires TopologyNoted(seed, noted, topologyChanged, at)
    requires Passed(table, noted, table', grown, fleets, false, subscriptions, at, SLOT_COUNT)
    ensures ViewOf(table') == fleets && SeedScanned(seed, grown, ViewOf(table), fleets, at)
    ensures forall i: Slot :: SlotVisited(table[i], table'[i], fleets[i], false, subscriptions, at)
  {
    assert forall i: Slot :: ViewOf(table)[i] == table[i].Held() && ViewOf(table')[i] == table'[i].Held();
    if ViewOf(table) != fleets {
      var i: Slot :| table[i].Held() != fleets[i];
    }
  }

  // One slot of such a pass.
  predicate Visited(was: ObservedFleet, seed: Seed, left: ObservedFleet, seed': Seed, fleet: Option<Entry>,
                    onlyFast: bool, subscriptions: seq<Subscription>, at: int) {
    && SeedGrown(seed, seed', at)
    && (was.Held() == fleet ==> seed' == seed)
    && (left.Held() != was.Held() && seed'.pending ==> seed'.hasObservation && seed'.lastChange >= at)
    && SlotVisited(was, left, fleet, onlyFast, subscriptions, at)
  }

  lemma PassStep(table: Table, seed: Seed, table': Table, seed': Seed, fleets: View, onlyFast: bool,
                 subscriptions: seq<Subscription>, at: int, n: Slot, left: ObservedFleet, seed'': Seed)
    requires Passed(table, seed, table', seed', fleets, onlyFast, subscriptions, at, n)
    requires Visited(table'[n], seed', left, seed'', fleets[n], onlyFast, subscriptions, at)
    ensures Passed(table, seed, table'[n := left], seed'', fleets, onlyFast, subscriptions, at, n + 1)
  {
  }

  // The statics that a scan changes, with the Monitor's record.
  datatype Snapshot = Snapshot(table: Table, seed: Seed, polling: Polling, record: Monitor)

  // What visiting one slot of a pass does.
  ghost predicate SlotStep(was: Snapshot, left: Snapshot, restarted: bool, slot: Slot, fleet: Option<Entry>,
                           onlyFast: bool, subscriptions: seq<Subscription>, at: int) {
    && (restarted <==> onlyFast && !was.seed.pending && ChangedHands(was.table[slot], fleet))
    && (onlyFast && !was.table[slot].FastPolling() ==> left == was)
    && if restarted then
         && Restarted(left.seed, left.table, left.record, was.record, at)
         && forall i: Slot :: i != slot ==> left.table[i] == EMPTY
       else
         && left.table == was.table[slot := left.table[slot]]
         && Visited(was.table[slot], was.seed, left.table[slot], left.seed, fleet, onlyFast, subscriptions, at)
         && SameSeeding(was.record, left.record) && PollingKept(was.polling, left.polling)
  }

  // An observation without a restart, as a visit.
  lemma ObservedStep(was: Snapshot, left: Snapshot, slot: Slot, entry: Entry, onlyFast: bool,
                     subscriptions: seq<Subscription>, at: int, now: int)
    requires at <= now && (!onlyFast || was.table[slot].FastPolling())
    requires was.seed.pending || SameFleet(was.table[slot].Held(), Some(entry))
    requires left.table == was.table[slot := left.table[slot]]
    requires Observed(was.table[slot], left.table[slot], entry, subscriptions, now)
    requires SeedAfter(was.seed, left.seed, was.table[slot].Held() == Some(entry), now)
    requires SameSeeding(was.record, left.record) && PollingKept(was.polling, left.polling)
    ensures SlotStep(was, left, false, slot, Some(entry), onlyFast, subscriptions, at)
  {
  }

  lemma SkippedStep(was: Snapshot, slot: Slot, fleet: Option<Entry>, subscriptions: seq<Subscription>, at: int)
    requires fleet.None? || !was.table[slot].FastPolling()
    ensures SlotStep(was, was, false, slot, fleet, true, subscriptions, at)
  {
  }

  lemma ClearedStep(was: Snapshot, left: Snapshot, slot: Slot, subscriptions: seq<Subscription>, at: int)
    requires left.table == was.table[slot := EMPTY] && left.seed == was.seed
    requires SameSeeding(was.record, left.record) && PollingKept(was.polling, left.polling)
    requires was.table[slot].occupied && was.seed.pending ==> was.seed.hasObservation && was.seed.lastChange >= at
    ensures SlotStep(was, left, false, slot, None, false, subscriptions, at)
  {
  }

  // What visiting the first n slots does: a restart empties the rest of the table, which ends
  // the pass over the fast-polled slots.
  ghost predicate PassSoFar(was: Snapshot, left: Snapshot, restarted: bool, fleets: View, onlyFast: bool,
                            subscriptions: seq<Subscription>, at: int, n: int) {
    && (restarted <==> onlyFast && !was.seed.pending && exists i: Slot :: i < n && ChangedHands(was.table[i], fleets[i]))
    && if restarted then
         && Restarted(left.seed, left.table, left.record, was.record, at)
         && forall i: Slot :: i >= n ==> left.table[i] == EMPTY
       else
         && Passed(was.table, was.seed, left.table, left.seed, fleets, onlyFast, subscriptions, at, n)
         && SameSeeding(was.record, left.record) && PollingKept(was.polling, left.polling)
         && (left.seed.pending <==> was.seed.pending)
  }

  lemma PassSoFarStep(was: Snapshot, between: Snapshot, left: Snapshot, restarted: bool, again: bool, fleets: View,
                      onlyFast: bool, subscriptions: seq<Subscription>, at: int, n: Slot)
    requires PassSoFar(was, between, restarted, fleets, onlyFast, subscriptions, at, n)
    requires SlotStep(between, left, again, n, fleets[n], onlyFast, subscriptions, at)
    ensures PassSoFar(was, left, restarted || again, fleets, onlyFast, subscriptions, at, n + 1)
  {
    if restarted {
      assert left == between;
    } else if again {
      assert ChangedHands(was.table[n], fleets[n]);
    } else {
      PassStep(was.table, was.seed, between.table, between.seed, fleets, onlyFast, subscriptions, at, n, left.table[n],
               left.seed);
    }
  }

  // What the next visit of a pass may rely on.
  lemma ReadyToVisit(was: Snapshot, left: Snapshot, restarted: bool, fleets: View, onlyFast: bool,
                     subscriptions: seq<Subscription>, at: int, n: Slot)
    requires PassSoFar(was, left, restarted, fleets, onlyFast, subscriptions, at, n)
    requires !onlyFast && !was.seed.pending ==> SameTopology(was.table[n].Held(), fleets[n])
    requires !onlyFast && fleets[n].None? && was.table[n].occupied ==> was.seed.hasObservation && was.seed.lastChange >= at
    ensures SameTick(was.record, left.record)
    ensures !onlyFast && !left.seed.pending ==> SameTopology(left.table[n].Held(), fleets[n])
    ensures !onlyFast && fleets[n].None? && left.table[n].occupied ==> left.seed.hasObservation && left.seed.lastChange >= at
  {
  }

  // A scan of the fast-polled slots after seeding: it restarts exactly when one changed hands.
  ghost predicate FastPass(was: Snapshot, left: Snapshot, fleets: View, subscriptions: seq<Subscription>, at: int) {
    && SameTick(was.record, left.record)
    && (left.seed.pending <==> exists i: Slot :: ChangedHands(was.table[i], fleets[i]))
    && (left.seed.pending ==> AfterRestart(left.seed, left.table, at))
    && (!left.seed.pending ==>
          && PollingKept(was.polling, left.polling) && left.seed == was.seed.(managerBacked := left.seed.managerBacked)
          && forall i: Slot :: SlotVisited(was.table[i], left.table[i], fleets[i], true, subscriptions, at))
  }

  lemma FastPassOutcome(was: Snapshot, left: Snapshot, restarted: bool, gathered: View, fleets: View,
                        subscriptions: seq<Subscription>, at: int)
    requires PassSoFar(was, left, restarted, gathered, true, subscriptions, at, SLOT_COUNT) && !was.seed.pending
    requires Gathered(was.table, fleets, gathered, false, true)
    ensures FastPass(was, left, fleets, subscriptions, at)
    ensures left.seed.pending <==> restarted
    ensures !restarted ==> left.seed == was.seed
  {
    assert forall i: Slot :: ChangedHands(was.table[i], gathered[i]) == ChangedHands(was.table[i], fleets[i]);
  }

  // What a whole pass owes the record of the scan.
  lemma PassFound(was: Snapshot, left: Snapshot, restarted: bool, fleets: View, onlyFast: bool,
                  subscriptions: seq<Subscription>, at: int)
    requires PassSoFar(was, left, restarted, fleets, onlyFast, subscriptions, at, SLOT_COUNT)
    requires was.record.phase != Dormant
    requires was.seed.pending && was.seed.hasObservation && was.record.firstScan.None? ==> was.seed.firstObserved >= at
    ensures left.record.phase != Dormant && SameTick(was.record, left.record)
    ensures left.seed.pending && ViewOf(left.table) != ViewOf(was.table) ==>
              left.seed.hasObservation && left.seed.lastChange >= at
    ensures left.seed.pending && left.seed.hasObservation && left.record.firstScan.None? ==> left.seed.firstObserved >= at
  {
    assert forall i: Slot :: ViewOf(was.table)[i] == was.table[i].Held() && ViewOf(left.table)[i] == left.table[i].Held();
  }

  // A scan of all slots while seeding.
  ghost predicate SeedPass(was: Snapshot, left: Snapshot, fleets: View, subscriptions: seq<Subscription>, at: int) {
    && PollingKept(was.polling, left.polling) && ViewOf(left.table) == fleets
    && forall i: Slot :: SlotVisited(was.table[i], left.table[i], fleets[i], false, subscriptions, at)
  }

  // What the first pass of a scan finds out.
  predicate Gathered(table: Table, fleets: View, gathered: View, topologyChanged: bool, onlyFast: bool) {
    && (forall i: Slot :: gathered[i] == if onlyFast && !table[i].FastPolling() then None else fleets[i])
    && (topologyChanged <==> !onlyFast && exists i: Slot :: !SameTopology(table[i].Held(), fleets[i]))
  }

  // What it makes of that before the second pass.
  predicate Noted(start: Snapshot, was: Snapshot, topologyChanged: bool, at: int) {
    if topologyChanged && !start.seed.pending then
      && was.seed.pending && !was.seed.hasObservation && SameTick(start.record, was.record)
      && was.record.firstScan.None? && forall i: Slot :: was.table[i] == EMPTY
    else
      && was == start.(seed := was.seed)
      && if start.seed.pending then TopologyNoted(start.seed, was.seed, topologyChanged, at) else was.seed == start.seed
  }

  lemma NotedMayVisit(start: Snapshot, was: Snapshot, fleets: View, gathered: View, topologyChanged: bool,
                      onlyFast: bool, at: int)
    requires Gathered(start.table, fleets, gathered, topologyChanged, onlyFast) && Noted(start, was, topologyChanged, at)
    requires !start.seed.hasObservation ==> ViewOf(start.table) == NOTHING
    ensures !onlyFast && !was.seed.pending ==> forall i: Slot :: SameTopology(was.table[i].Held(), gathered[i])
    ensures forall i: Slot :: !onlyFast && gathered[i].None? && was.table[i].occupied ==>
              was.seed.hasObservation && was.seed.lastChange >= at
  {
    NothingIsEmpty(start.table);
  }

  lemma SeedPassOutcome(start: Snapshot, was: Snapshot, left: Snapshot, restarted: bool, topologyChanged: bool,
                        gathered: View, fleets: View, subscriptions: seq<Subscription>, at: int)
    requires start.seed.pending && (!start.seed.hasObservation ==> ViewOf(start.table) == NOTHING)
    requires Gathered(start.table, fleets, gathered, topologyChanged, false) && Noted(start, was, topologyChanged, at)
    requires PassSoFar(was, left, restarted, gathered, false, subscriptions, at, SLOT_COUNT)
    ensures SeedPass(start, left, fleets, subscriptions, at) && SameSeeding(start.record, left.record)
    ensures SeedScanned(start.seed, left.seed, ViewOf(start.table), fleets, at)
  {
    SeedScanOutcome(start.table, start.seed, fleets, topologyChanged, was.seed, left.table, left.seed, subscriptions, at);
  }

  // What a whole scan does while seeding, and after it.
  ghost predicate SeedScan(was: Snapshot, left: Snapshot, service: Service, subscriptions: seq<Subscription>, at: int) {
    && SeedPass(was, left, service.fleets, subscriptions, at) && left.seed.managerBacked
    && SeedScanned(was.seed.(managerBacked := true), left.seed, ViewOf(was.table), service.fleets, at)
    && ScanRemembered(was.record, left.record, service, at)
  }

  // How the scan is marked after its passes.
  ghost predicate Marked(scanned: Snapshot, left: Snapshot, at: int) {
    && left == scanned.(seed := scanned.seed.(managerBacked := true), record := left.record)
    && left.record == scanned.record.(firstScan := left.record.firstScan, lastChange := left.record.lastChange,
                                      lastScan := ViewOf(left.table))
    && left.record.firstScan == if scanned.record.firstScan.None? then Some(at) else scanned.record.firstScan
  }

  // What holds of seeding and record between ticks.
  predicate Steady(seed: Seed, record: Monitor) {
    && (seed.hasObservation <==> seed.managerBacked)
    && (!seed.pending && seed.managerBacked <==> record.phase == Live)
    && (seed.pending ==> (seed.hasObservation <==> record.firstScan.Some?))
  }

  lemma FastScanOutcome(start: Snapshot, was: Snapshot, scanned: Snapshot, left: Snapshot, restarted: bool,
                        topologyChanged: bool, gathered: View, fleets: View, subscriptions: seq<Subscription>, at: int)
    requires !start.seed.pending && Steady(start.seed, start.record) && start.record.phase == Live
    requires Gathered(start.table, fleets, gathered, topologyChanged, true) && Noted(start, was, topologyChanged, at)
    requires PassSoFar(was, scanned, restarted, gathered, true, subscriptions, at, SLOT_COUNT)
    requires Marked(scanned, left, at)
    ensures FastPass(start, left, fleets, subscriptions, at) && Steady(left.seed, left.record)
  {
    FastPassOutcome(was, scanned, restarted, gathered, fleets, subscriptions, at);
  }

  lemma SeedScanFinished(start: Snapshot, was: Snapshot, scanned: Snapshot, left: Snapshot, restarted: bool,
                         topologyChanged: bool, gathered: View, service: Service, subscriptions: seq<Subscription>, at: int)
    requires start.seed.pending && Steady(start.seed, start.record) && start.record.phase == Seeding
    requires start.record.service == service && (!start.seed.hasObservation ==> ViewOf(start.table) == NOTHING)
    requires Gathered(start.table, service.fleets, gathered, topologyChanged, false) && Noted(start, was, topologyChanged, at)
    requires PassSoFar(was, scanned, restarted, gathered, false, subscriptions, at, SLOT_COUNT)
    requires Marked(scanned, left, at)
    ensures SeedScan(start, left, service, subscriptions, at)
    ensures left.seed.hasObservation ==> Steady(left.seed, left.record)
  {
    SeedPassOutcome(start, was, scanned, restarted, topologyChanged, gathered, service.fleets, subscriptions, at);
  }

  lemma ScanOutcome(start: Snapshot, was: Snapshot, scanned: Snapshot, left: Snapshot, restarted: bool,
                    topologyChanged: bool, gathered: View, service: Service, onlyFast: bool,
                    subscriptions: seq<Subscription>, at: int)
    requires Steady(start.seed, start.record) && start.record.phase != Dormant
    requires (start.seed.pending <==> start.record.phase == Seeding)
    requires start.record.service == service && (!start.seed.hasObservation ==> ViewOf(start.table) == NOTHING)
    requires Gathered(start.table, service.fleets, gathered, topologyChanged, onlyFast)
    requires Noted(start, was, topologyChanged, at)
    requires PassSoFar(was, scanned, restarted, gathered, onlyFast, subscriptions, at, SLOT_COUNT)
    requires Marked(scanned, left, at)
    ensures onlyFast && !start.seed.pending ==>
              FastPass(start, left, service.fleets, subscriptions, at) && Steady(left.seed, left.record)
    ensures !onlyFast && start.seed.pending ==>
      && SeedScan(start, left, service, subscriptions, at) && (left.seed.hasObservation ==> Steady(left.seed, left.record))
  {
    if onlyFast && !start.seed.pending {
      FastScanOutcome(start, was, scanned, left, restarted, topologyChanged, gathered, service.fleets, subscriptions, at);
    } else if !onlyFast && start.seed.pending {
      SeedScanFinished(start, was, scanned, left, restarted, topologyChanged, gathered, service, subscriptions, at);
    }
  }

  // The table, its counters and the seeding state against the Monitor's record of the trace.
  ghost predicate Agree(table: Table, fastCount: int, seed: Seed, clock: int, m: Monitor) {
    && 0 <= seed.firstObserved <= clock && 0 <= seed.lastChange <= clock && seed.started <= clock
    && (m.firstScan.Some? ==> m.firstScan.value <= clock)
    && fastCount == FastCount(table)
    && (!seed.hasObservation ==> ViewOf(table) == NOTHING)
    && (forall i: Slot :: m.spent[i].Some? ==> m.spent[i] == table[i].Spent())
    && (seed.pending <==> m.phase == Seeding)
    && (m.phase == Live ==> seed.managerBacked && seed.hasObservation && m.published == ViewOf(table))
    && (seed.pending ==>
          && (seed.finalizeCandidate ==> m.candidate)
          && (m.lastChange.Some? ==> seed.hasObservation && m.lastChange.value <= seed.lastChange)
          && (m.firstScan.Some? && seed.hasObservation ==> m.firstScan.value <= seed.firstObserved))
  }

  // What a completed observation of one slot keeps.
  lemma StillWanted(table: Table, subscriptions: seq<Subscription>, slot: Slot, x: ObservedFleet)
    requires AllWanted(table, subscriptions) && (x.FastPolling() ==> Wants(subscriptions, x.state))
    ensures AllWanted(table[slot := x], subscriptions)
  {
  }

  lemma MoreWanted(table: Table, subscriptions: seq<Subscription>, added: Subscription)
    requires AllWanted(table, subscriptions)
    ensures AllWanted(table, subscriptions + [added])
  {
    forall i: Slot | table[i].FastPolling() ensures Wants(subscriptions + [added], table[i].state) {
      WantsMore(subscriptions, subscriptions + [added], table[i].state);
    }
  }

  lemma WantsMore(some: seq<Subscription>, more: seq<Subscription>, state: int)
    requires some <= more && Wants(some, state)
    ensures Wants(more, state)
  {
    var k :| 0 <= k < |some| && some[k].needsFastPoll.Some? && some[k].needsFastPoll.value(state) == Some(true);
    assert more[k] == some[k];
  }

  lemma ObservationAgrees(table: Table, count: int, seed: Seed, clock: int, m: Monitor, slot: Slot, entry: Entry,
                          x: ObservedFleet, count': int, seed': Seed, clock': int, m': Monitor)
    requires Agree(table, count, seed, clock, m) && m.phase != Dormant && count' == FastCount(table[slot := x])
    requires clock <= clock' && seed'.lastChange <= clock'
    requires x.Held() == Some(entry) && SeedAfter(seed, seed', table[slot].Held() == Some(entry), clock)
    requires x.fastPollExhausted == (table[slot].Held() == Some(entry) && table[slot].fastPollExhausted)
    requires m.spent[slot] in {None, Some(entry)}
    requires m.phase == Live ==> SameFleet(table[slot].Held(), Some(entry))
    requires m' == m.(due := None, published := if m.phase == Live then m.published[slot := Some(entry)] else m.published)
    ensures Agree(table[slot := x], count', seed', clock', m')
  {
  }

  class FleetWatch {
    const slots: array<ObservedFleet>
    var registry: Registry
    var seed: Seed
    var polling: Polling
    var clock: int
    ghost var trace: seq<Event>
    ghost var run: seq<Monitor>  // the Monitor's record over trace

    ghost function Now(): Monitor
      reads this
      requires |run| > 0
    {
      run[|run| - 1]
    }

    ghost function Snap(): Snapshot
      reads this, slots
      requires slots.Length == SLOT_COUNT && |run| > 0
    {
      Snapshot(slots[..], seed, polling, Now())
    }

    // The table, its counters and the trace agree. Holds around every step of a tick.
    ghost predicate Coherent()
      reads this, slots
    {
      && slots.Length == SLOT_COUNT && Accepts(trace, run)
      && Agree(slots[..], polling.fastCount, seed, clock, Now())
      && (seed.pending ==> AtRest(polling)) && AllWanted(slots[..], registry.subscriptions)
    }

    ghost predicate Settled()
      reads this
    {
      |run| > 0 && Now().due.None?
    }

    // What holds between ticks.
    ghost predicate Valid()
      reads this, slots
    {
      Coherent() && Settled() && Steady(seed, Now())
    }

    constructor ()
      ensures Valid() && fresh(slots) && trace == []
      ensures registry == Registry([], false) && seed == IDLE_SEED && polling == IDLE_POLLING
    {
      slots := new ObservedFleet[SLOT_COUNT](_ => EMPTY);
      registry, seed, polling, clock := Registry([], false), IDLE_SEED, IDLE_POLLING, 0;
      trace, run := [], [START];
      new;
      EmptyTable(slots[..]);
    }

    static lemma EmptyTable(s: Table)
      requires forall i :: 0 <= i < SLOT_COUNT ==> s[i] == EMPTY
      ensures FastCount(s) == 0 && ViewOf(s) == NOTHING && SpentOf(s) == NOTHING
    {
      FastCountZero(s);
    }

    ghost method Emit(e: Event)
      requires Accepts(trace, run) && Allowed(Now(), e)
      modifies this`trace, this`run
      ensures Accepts(trace, run) && trace == old(trace) + [e] && Now() == Step(old(Now()), e)
    {
      run := run + [Step(Now(), e)];
      trace := trace + [e];
    }

    method ReadClock() returns (t: int)
      modifies this`clock
      ensures t == clock >= old(clock)
    {
      t :| t >= clock;
      clock := t;
    }

    method NeedsFastPoll(state: int) returns (wanted: bool)
      ensures wanted == Wants(registry.subscriptions, state)
    {
      for i := 0 to |registry.subscriptions|
        invariant !Wants(registry.subscriptions[..i], state)
      {
        assert registry.subscriptions[..i + 1] == registry.subscriptions[..i] + [registry.subscriptions[i]];
        if registry.subscriptions[i].needsFastPoll.None? {
          continue;
        }
        if registry.subscriptions[i].needsFastPoll.value(state) == Some(true) {
          return true;
        }
      }
      assert registry.subscriptions[..|registry.subscriptions|] == registry.subscriptions;
      return false;
    }

    method ResetObservation()
      requires slots.Length == SLOT_COUNT && Accepts(trace, run) && Allowed(Now(), Event.Reset) && clock >= 0
      modifies this, slots
      ensures registry == old(registry)
      ensures Valid() && seed == IDLE_SEED.(pending := true, started := clock) && polling == IDLE_POLLING
      ensures clock >= old(clock) && trace == old(trace) + [Event.Reset]
      ensures Now() == AfterReset(old(Now()))
      ensures forall i :: 0 <= i < SLOT_COUNT ==> slots[i] == EMPTY
    {
      forall i | 0 <= i < slots.Length { slots[i] := EMPTY; }
      var now := ReadClock();
      seed := IDLE_SEED.(pending := true, started := now);
      polling := IDLE_POLLING;
      Emit(Event.Reset);
      EmptyTable(slots[..]);
    }

    method ClearSlot(slot: Slot)
      requires Coherent() && Settled() && (!seed.pending ==> !slots[slot].occupied)
      requires slots[slot].occupied ==> seed.hasObservation
      modifies this`polling, this`trace, this`run, slots
      ensures Coherent() && Settled()
      ensures slots[..] == old(slots[..])[slot := EMPTY]
      ensures polling == old(polling).(fastCount := polling.fastCount)
      ensures trace == old(trace) + [Vacated(slot)]
      ensures Now() == Step(old(Now()), Vacated(slot))
    {
      FastCountUpdate(slots[..], slot, EMPTY);
      if slots[slot].occupied && slots[slot].fastPollStarted != 0 {
        polling := polling.(fastCount := polling.fastCount - 1);
      }
      Emit(Vacated(slot));
      slots[slot] := EMPTY;
      assert slots[..] == old(slots[..])[slot := EMPTY];
    }

    // Writes one observation into its slot and keeps the count of fast-polled slots.
    method StoreObservation(slot: Slot, entry: Entry, sameFleet: bool, sameState: bool) returns (began: bool)
      requires slots.Length == SLOT_COUNT && polling.fastCount == FastCount(slots[..])
      requires sameState ==> slots[slot].Held() == Some(entry)
      requires sameFleet ==> SameFleet(slots[slot].Held(), Some(entry))
      modifies this`clock, this`polling, slots
      ensures clock >= old(clock) && polling.fastCount == FastCount(slots[..])
      ensures slots[..] == old(slots[..])[slot := slots[slot]] && slots[slot].Held() == Some(entry)
      ensures slots[slot].fastPollExhausted == (sameState && old(slots[slot]).fastPollExhausted)
      ensures slots[slot].FastPolling() ==> !slots[slot].fastPollExhausted && Wants(registry.subscriptions, entry.state)
      ensures !slots[slot].fastPollExhausted && Wants(registry.subscriptions, entry.state) && old(clock) > 0 ==>
                slots[slot].FastPolling()
      ensures FastStartKept(old(slots[slot]), slots[slot], old(clock))
      ensures sameFleet && old(slots[slot]).FastPolling() && slots[slot].FastPolling() ==>
                slots[slot].fastPollStarted == old(slots[slot]).fastPollStarted
      ensures began <==> slots[slot].FastPolling() && !(sameFleet && old(slots[slot]).FastPolling())
      ensures Rearmed(old(polling), polling, slots[slot])
      ensures PollingKept(old(polling), polling)
    {
      var previous := slots[slot];
      var wasFastPolling := previous.FastPolling();
      var fastStarted := 0;
      var fastExhausted := sameState && previous.fastPollExhausted;
      if !fastExhausted {
        var wanted := NeedsFastPoll(entry.state);
        if wanted {
          if sameFleet && wasFastPolling {
            fastStarted := previous.fastPollStarted;
          } else {
            fastStarted := ReadClock();
          }
        }
      }
      FastCountUpdate(slots[..], slot, ObservedFleet(entry.fleet, entry.state, true, fastStarted, fastExhausted));
      slots[slot] := ObservedFleet(entry.fleet, entry.state, true, fastStarted, fastExhausted);
      assert slots[..] == old(slots[..])[slot := slots[slot]];
      var isFastPolling := fastStarted != 0;
      if wasFastPolling != isFastPolling {
        polling := polling.(fastCount := polling.fastCount + if isFastPolling then 1 else -1);
        if isFastPolling && polling.fastCount == 1 {
          polling := polling.(lastFastPoll := 0);
        }
      }
      began := isFastPolling && !(sameFleet && wasFastPolling);
    }

    // The observation itself: another fleet than the slot held, after a baseline, restarts.
    method SeeFleet(slot: Slot, entry: Entry) returns (restarted: bool)
      requires Coherent() && Settled() && Now().phase != Dormant && Now().service.fleets[slot] == Some(entry)
      modifies this, slots
      ensures Coherent() && (restarted ==> Settled())
      ensures registry == old(registry)
      ensures clock >= old(clock) && old(trace) <= trace
      ensures restarted <==> !old(seed.pending) && !SameFleet(old(slots[slot]).Held(), Some(entry))
      ensures restarted ==>
        && seed == IDLE_SEED.(pending := true, started := seed.started) && polling == IDLE_POLLING
        && Now() == AfterReset(old(Now()))
        && (forall i :: 0 <= i < SLOT_COUNT ==> slots[i] == EMPTY)
      ensures !restarted ==>
        && seed == old(seed) && polling == old(polling) && slots[..] == old(slots[..])
        && SameSeeding(old(Now()), Now()) && Now().published == old(Now()).published
        && Now().spent[slot] in {None, Some(entry)}
        && Now().due == if seed.pending || slots[slot].Held() == Some(entry) then None
                        else Some(Transition(slot, entry.fleet, slots[slot].state, entry.state))
    {
      var sameFleet := SameFleet(slots[slot].Held(), Some(entry));
      Emit(Seen(slot, entry));
      restarted := false;
      if !sameFleet && !seed.pending {
        ResetObservation();
        restarted := true;
      }
    }

    // While seeding, an observed change restarts the quiet period.
    method NoteChange(sameState: bool)
      requires seed.lastChange <= clock
      modifies this`clock, this`seed
      ensures clock >= old(clock) && SeedAfter(old(seed), seed, sameState, old(clock)) && seed.lastChange <= clock
    {
      if seed.pending && !sameState {
        var now := ReadClock();
        if !seed.hasObservation {
          seed := seed.(hasObservation := true, firstObserved := now);
        }
        seed := seed.(lastChange := now, finalizeCandidate := false);
      }
    }

    method PublishObservation(slot: Slot, entry: Entry, sameFleet: bool, publish: bool, previousState: int, began: bool)
      requires Accepts(trace, run)
      requires var due := sameFleet && publish && !seed.pending && previousState != entry.state;
               Now().due == if due then Some(Transition(slot, entry.fleet, previousState, entry.state)) else None
      requires began ==> Now().spent[slot] != Some(entry)
      modifies this`trace, this`run
      ensures Accepts(trace, run) && old(trace) <= trace
      ensures Now() == old(Now()).(due := None, published :=
                if old(Now()).due.Some? then old(Now()).published[slot := Some(entry)] else old(Now()).published)
    {
      if sameFleet && publish && !seed.pending && previousState != entry.state {
        Emit(Transition(slot, entry.fleet, previousState, entry.state));
      }
      if began {
        Emit(Armed(slot, entry));
      }
    }

    // The observation in the table and in the seeding state.
    method StoreAndNote(slot: Slot, entry: Entry, sameFleet: bool, sameState: bool) returns (began: bool)
      requires Coherent()
      requires sameFleet == SameFleet(slots[slot].Held(), Some(entry)) && sameState == (slots[slot].Held() == Some(entry))
      modifies this`clock, this`seed, this`polling, slots
      ensures clock >= old(clock) && polling.fastCount == FastCount(old(slots[..])[slot := slots[slot]])
      ensures slots[..] == old(slots[..])[slot := slots[slot]] && AllWanted(slots[..], registry.subscriptions)
      ensures slots[slot].fastPollExhausted == (sameState && old(slots[slot]).fastPollExhausted)
      ensures Observed(old(slots[slot]), slots[slot], entry, registry.subscriptions, old(clock))
      ensures SeedAfter(old(seed), seed, sameState, old(clock)) && seed.lastChange <= clock
      ensures PollingKept(old(polling), polling) && Rearmed(old(polling), polling, slots[slot])
      ensures began ==> !slots[slot].fastPollExhausted
    {
      began := StoreObservation(slot, entry, sameFleet, sameState);
      StillWanted(old(slots[..]), registry.subscriptions, slot, slots[slot]);
      NoteChange(sameState);
    }

    // The rest of an observation, once it is known not to restart or to have restarted.
    method RecordFleet(slot: Slot, entry: Entry, sameFleet: bool, sameState: bool, publish: bool)
      requires Coherent() && (seed.pending || publish) && Now().phase != Dormant && Now().spent[slot] in {None, Some(entry)}
      requires sameFleet == SameFleet(slots[slot].Held(), Some(entry)) && sameState == (slots[slot].Held() == Some(entry))
      requires seed.pending || sameFleet
      requires Now().due == if seed.pending || sameState then None
                            else Some(Transition(slot, entry.fleet, slots[slot].state, entry.state))
      modifies this, slots
      ensures Coherent() && Settled()
      ensures registry == old(registry)
      ensures clock >= old(clock) && old(trace) <= trace
      ensures Observed(old(slots[slot]), slots[slot], entry, registry.subscriptions, old(clock))
      ensures slots[..] == old(slots[..])[slot := slots[slot]]
      ensures SeedAfter(old(seed), seed, sameState, old(clock)) && SameSeeding(old(Now()), Now())
      ensures PollingKept(old(polling), polling)
      ensures Rearmed(old(polling), polling, slots[slot])
    {
      var previousState := slots[slot].state;
      var began := StoreAndNote(slot, entry, sameFleet, sameState);
      PublishObservation(slot, entry, sameFleet, publish, previousState, began);
      ObservationAgrees(old(slots[..]), old(polling.fastCount), old(seed), old(clock), old(Now()), slot, entry,
                        slots[slot], polling.fastCount, seed, clock, Now());
    }

    // One observation of a slot: restart on another fleet, re-arm or drop fast polling, note
    // a change while seeding, publish a change of state after a baseline.
    method ObserveFleet(fleet: Option<Entry>, requestedSlot: int, publish: bool) returns (ghost restarted: bool)
      requires Coherent() && Settled() && (seed.pending || (publish && Now().phase == Live))
      requires 0 <= requestedSlot < SLOT_COUNT ==> fleet == Now().service.fleets[requestedSlot]
      modifies this, slots
      ensures Coherent() && Settled()
      ensures registry == old(registry)
      ensures clock >= old(clock) && old(trace) <= trace
      ensures fleet.None? || !(0 <= requestedSlot < SLOT_COUNT) ==> unchanged(this, slots) && !restarted
      ensures fleet.Some? && 0 <= requestedSlot < SLOT_COUNT ==>
        && (restarted <==> !old(seed.pending) && !SameFleet(old(slots[requestedSlot]).Held(), fleet))
        && Observed(if restarted then EMPTY else old(slots[requestedSlot]), slots[requestedSlot], fleet.value,
                    registry.subscriptions, old(clock))
        && (forall j :: 0 <= j < SLOT_COUNT && j != requestedSlot ==>
              slots[j] == if restarted then EMPTY else old(slots[j]))
        && (if restarted then
              && SeedAfter(IDLE_SEED.(pending := true, started := seed.started), seed, false, old(clock))
              && SameSeeding(AfterReset(old(Now())), Now())
            else
              && SeedAfter(old(seed), seed, old(slots[requestedSlot]).Held() == fleet, old(clock))
              && SameSeeding(old(Now()), Now())
              && PollingKept(old(polling), polling)
              && (polling.lastFastPoll != old(polling).lastFastPoll ==>
                    polling.fastCount == 1 && slots[requestedSlot].FastPolling()))
    {
      restarted := false;
      if fleet.None? || requestedSlot < 0 || requestedSlot >= SLOT_COUNT {
        return;
      }
      var slot: Slot, entry := requestedSlot, fleet.value;
      var held := slots[slot].Held();
      var sameFleet, sameState := SameFleet(held, fleet), held == fleet;
      restarted := SeeFleet(slot, entry);
      RecordFleet(slot, entry, sameFleet, sameState, publish);
    }

    // One slot of a pass. Time at is when the pass began.
    method VisitSlot(slot: Slot, fleet: Option<Entry>, publish: bool, onlyFast: bool, ghost at: int)
      returns (ghost restarted: bool)
      requires Coherent() && Settled() && (seed.pending || (publish && Now().phase == Live)) && at <= clock
      requires fleet.Some? ==> fleet == Now().service.fleets[slot]
      requires !onlyFast && !seed.pending ==> SameTopology(slots[slot].Held(), fleet)
      requires !onlyFast && fleet.None? && slots[slot].occupied ==> seed.hasObservation && seed.lastChange >= at
      modifies this, slots
      ensures Coherent() && Settled()
      ensures registry == old(registry)
      ensures clock >= old(clock) && old(trace) <= trace
      ensures seed.pending || (publish && Now().phase == Live)
      ensures SlotStep(old(Snap()), Snap(), restarted, slot, fleet, onlyFast, registry.subscriptions, at)
    {
      restarted := false;
      ghost var was, now := Snap(), clock;
      if onlyFast && (!slots[slot].occupied || slots[slot].fastPollStarted == 0) {
        SkippedStep(was, slot, fleet, registry.subscriptions, at);
        return;
      }
      if fleet.Some? {
        restarted := ObserveFleet(fleet, slot, publish);
        if !restarted {
          ObservedStep(was, Snap(), slot, fleet.value, onlyFast, registry.subscriptions, at, now);
        }
      } else if !onlyFast {
        ClearSlot(slot);
        ClearedStep(was, Snap(), slot, registry.subscriptions, at);
      } else {
        SkippedStep(was, slot, fleet, registry.subscriptions, at);
      }
    }

    // The first pass of a scan: which fleets it will look at, and whether occupancy or ids moved.
    method GatherFleets(service: Service, onlyFast: bool) returns (fleets: View, topologyChanged: bool)
      requires slots.Length == SLOT_COUNT
      ensures Gathered(slots[..], service.fleets, fleets, topologyChanged, onlyFast)
    {
      fleets, topologyChanged := NOTHING, false;
      for slot := 0 to SLOT_COUNT
        invariant forall i: Slot :: fleets[i] ==
                    if i >= slot || (onlyFast && !slots[i].FastPolling()) then None else service.fleets[i]
        invariant topologyChanged <==>
                    !onlyFast && exists i: Slot :: i < slot && !SameTopology(slots[i].Held(), service.fleets[i])
      {
        if onlyFast && (!slots[slot].occupied || slots[slot].fastPollStarted == 0) {
          continue;
        }
        fleets := fleets[slot := service.fleets[slot]];
        if onlyFast {
          continue;
        }
        var occupied := fleets[slot].Some?;
        if slots[slot].occupied != occupied || (occupied && slots[slot].fleet != fleets[slot].value.fleet) {
          topologyChanged := true;
        }
      }
    }

    // What the second pass of a scan needs to know of the fleets it was given.
    ghost predicate MayVisit(start: Snapshot, fleets: View, onlyFast: bool, at: int)
      reads this
    {
      && at <= clock
      && (forall i: Slot :: fleets[i].Some? ==> fleets[i] == start.record.service.fleets[i])
      && (!onlyFast && !start.seed.pending ==> forall i: Slot :: SameTopology(start.table[i].Held(), fleets[i]))
      && (forall i: Slot :: !onlyFast && fleets[i].None? && start.table[i].occupied ==>
            start.seed.hasObservation && start.seed.lastChange >= at)
    }

    // The next slot of a pass that began at start.
    method VisitNext(ghost start: Snapshot, ghost was: bool, slot: Slot, fleets: View, publish: bool, onlyFast: bool,
                     ghost at: int)
      returns (ghost restarted: bool)
      requires Coherent() && Settled() && (seed.pending || (publish && Now().phase == Live))
      requires MayVisit(start, fleets, onlyFast, at)
      requires PassSoFar(start, Snap(), was, fleets, onlyFast, registry.subscriptions, at, slot)
      modifies this, slots
      ensures Coherent() && Settled() && (seed.pending || (publish && Now().phase == Live))
      ensures clock >= old(clock) && old(trace) <= trace && registry == old(registry)
      ensures PassSoFar(start, Snap(), restarted, fleets, onlyFast, registry.subscriptions, at, slot + 1)
    {
      ghost var between := Snap();
      ReadyToVisit(start, between, was, fleets, onlyFast, registry.subscriptions, at, slot);
      ghost var again := VisitSlot(slot, fleets[slot], publish, onlyFast, at);
      PassSoFarStep(start, between, Snap(), was, again, fleets, onlyFast, registry.subscriptions, at, slot);
      restarted := was || again;
    }

    // The second pass of a scan.
    method VisitAll(fleets: View, publish: bool, onlyFast: bool, ghost at: int) returns (ghost restarted: bool)
      requires Coherent() && Settled() && (seed.pending || (publish && Now().phase == Live))
      requires MayVisit(Snap(), fleets, onlyFast, at)
      modifies this, slots
      ensures Coherent() && Settled() && (seed.pending || (publish && Now().phase == Live))
      ensures clock >= old(clock) && old(trace) <= trace && registry == old(registry)
      ensures PassSoFar(old(Snap()), Snap(), restarted, fleets, onlyFast, registry.subscriptions, at, SLOT_COUNT)
    {
      restarted := false;
      ghost var start := Snap();
      for slot := 0 to SLOT_COUNT
        invariant Coherent() && Settled() && (seed.pending || (publish && Now().phase == Live))
        invariant clock >= old(clock) && old(trace) <= trace && registry == old(registry)
        invariant PassSoFar(start, Snap(), restarted, fleets, onlyFast, registry.subscriptions, at, slot)
      {
        restarted := VisitNext(start, restarted, slot, fleets, publish, onlyFast, at);
      }
    }

    // Between the passes of a scan: restart on a changed topology after a baseline, or note
    // the change while seeding.
    method NoteTopology(topologyChanged: bool, publish: bool) returns (publishing: bool)
      requires Coherent() && Settled() && Now().phase != Dormant && (seed.pending || publish)
      modifies this, slots
      ensures Coherent() && Settled() && clock >= old(clock) && old(trace) <= trace && registry == old(registry)
      ensures Now().phase != Dormant && (seed.pending || publishing)
      ensures Noted(old(Snap()), Snap(), topologyChanged, old(clock))
    {
      publishing := publish;
      if topologyChanged && publish && !seed.pending {
        ResetObservation();
        publishing := false;
      } else if topologyChanged && seed.pending && seed.hasObservation {
        var now := ReadClock();
        seed := seed.(lastChange := now, finalizeCandidate := false);
      }
    }

    // A scan that saw the service leaves its mark.
    method FinishScan(ghost at: int, ghost found: View)
      requires Coherent() && Settled() && Now().phase != Dormant && at <= clock
      requires seed.pending && ViewOf(slots[..]) != found ==> seed.hasObservation && seed.lastChange >= at
      requires seed.pending && seed.hasObservation && Now().firstScan.None? ==> seed.firstObserved >= at
      modifies this`seed, this`trace, this`run
      ensures Coherent() && Settled() && old(trace) <= trace && Marked(old(Snap()), Snap(), at)
    {
      seed := seed.(managerBacked := true);
      Emit(Scanned(at, found, ViewOf(slots[..])));
    }

    // Both passes of a scan: the state between them and what the second one made of it.
    method ScanFleets(service: Service, publish: bool, onlyFast: bool)
      returns (ghost gathered: View, ghost topologyChanged: bool, ghost was: Snapshot, ghost restarted: bool)
      requires Valid() && Now().phase != Dormant && (seed.pending || publish) && service == Now().service
      modifies this, slots
      ensures Coherent() && Settled() && clock >= old(clock) && old(trace) <= trace && registry == old(registry)
      ensures Gathered(old(slots[..]), service.fleets, gathered, topologyChanged, onlyFast)
      ensures Noted(old(Snap()), was, topologyChanged, old(clock)) && was.record.phase != Dormant
      ensures PassSoFar(was, Snap(), restarted, gathered, onlyFast, registry.subscriptions, old(clock), SLOT_COUNT)
    {
      ghost var start, at := Snap(), clock;
      var fleets, changed := GatherFleets(service, onlyFast);
      var publishing := NoteTopology(changed, publish);
      gathered, topologyChanged, was := fleets, changed, Snap();
      NotedMayVisit(start, was, service.fleets, fleets, changed, onlyFast, at);
      restarted := VisitAll(fleets, publishing, onlyFast, at);
    }

    method ScanManager(service: Service, publish: bool, onlyFast: bool) returns (managerAvailable: bool)
      requires Valid() && Now().phase != Dormant && (seed.pending || publish) && service == Now().service
      modifies this, slots
      ensures managerAvailable == service.available && (!service.available ==> unchanged(this, slots))
      ensures Coherent() && Settled() && clock >= old(clock) && old(trace) <= trace && registry == old(registry)
      ensures service.available && !onlyFast && old(seed.pending) ==>
        && SeedScan(old(Snap()), Snap(), service, registry.subscriptions, old(clock))
        && (seed.hasObservation ==> Valid())
      ensures service.available && onlyFast && !old(seed.pending) ==>
                Valid() && FastPass(old(Snap()), Snap(), service.fleets, registry.subscriptions, old(clock))
    {
      managerAvailable := service.available;
      if managerAvailable {
        ghost var start, at := Snap(), clock;
        ghost var gathered, topologyChanged, was, restarted, scanned := ScanAndMark(service, publish, onlyFast);
        ScanOutcome(start, was, scanned, Snap(), restarted, topologyChanged, gathered, service, onlyFast,
                    registry.subscriptions, at);
      }
    }

    method ScanAndMark(service: Service, publish: bool, onlyFast: bool)
      returns (ghost gathered: View, ghost topologyChanged: bool, ghost was: Snapshot, ghost restarted: bool,
               ghost scanned: Snapshot)
      requires Valid() && Now().phase != Dormant && (seed.pending || publish) && service == Now().service
      modifies this, slots
      ensures Coherent() && Settled() && clock >= old(clock) && old(trace) <= trace && registry == old(registry)
      ensures Gathered(old(slots[..]), service.fleets, gathered, topologyChanged, onlyFast)
      ensures Noted(old(Snap()), was, topologyChanged, old(clock))
      ensures PassSoFar(was, scanned, restarted, gathered, onlyFast, registry.subscriptions, old(clock), SLOT_COUNT)
      ensures Marked(scanned, Snap(), old(clock))
    {
      ghost var at := clock;
      gathered, topologyChanged, was, restarted := ScanFleets(service, publish, onlyFast);
      PassFound(was, Snap(), restarted, gathered, onlyFast, registry.subscriptions, at);
      scanned := Snap();
      FinishScan(at, ViewOf(was.table));
    }

    // -------------------------------------------------------------------------------
    // Tick while seeding
    // -------------------------------------------------------------------------------

    static function SeedInterval(seed: Seed, now: int): int {
      if now - seed.started < SEED_FAST_PERIOD_MS then SEED_INTERVAL_MS else SEED_BACKOFF_INTERVAL_MS
    }

    static predicate AttemptDue(seed: Seed, now: int) {
      seed.lastAttempt == 0 || now - seed.lastAttempt >= SeedInterval(seed, now)
    }

    // The periodic scan of seeding. A service that is lost after it was seen resets.
    method AttemptSeed(now: int, service: Service) returns (reset: bool)
      requires Valid() && seed.pending && Now().service == service && now == clock
      requires seed.finalizeCandidate ==> Now().armed
      modifies this, slots
      ensures Valid() && seed.pending && Now().service == service
      ensures SameTick(old(Now()), Now())
      ensures clock >= old(clock) && old(trace) <= trace && registry == old(registry)
      ensures seed.finalizeCandidate ==> Now().armed
      ensures reset <==> AttemptDue(old(seed), now) && old(seed).managerBacked && !service.available
      ensures reset ==> seed == IDLE_SEED.(pending := true, started := seed.started)
      ensures !reset ==>
                Attempted(old(seed), old(slots[..]), seed, slots[..], service, registry.subscriptions, now)
    {
      reset := false;
      if AttemptDue(seed, now) {
        seed := seed.(lastAttempt := now);
        var available := ScanManager(service, false, false);
        if seed.managerBacked && !available {
          ResetObservation();
          reset := true;
        } else if available && !seed.hasObservation {
          seed := seed.(hasObservation := true, firstObserved := now, lastChange := now);
        }
      }
    }

    // Once something was observed: set the candidate, and confirm it on a later tick.
    method FinishSeed(now: int, service: Service)
      requires Valid() && seed.pending && seed.hasObservation && Now().service == service && now <= clock
      requires seed.finalizeCandidate ==> Now().armed
      modifies this, slots
      ensures Valid() && clock >= old(clock) && old(trace) <= trace && registry == old(registry)
      ensures SameTick(old(Now()), Now())
      ensures !seed.pending ==>
                Now().phase == Live && Now().published == service.fleets && service.available && Opened(polling, now)
      ensures Finished(old(seed), old(slots[..]), seed, slots[..], service, registry.subscriptions, now)
    {
      var quiet := now - seed.lastChange >= STABILIZATION_MS;
      var forced := now - seed.firstObserved >= MAX_STABILIZATION_MS;
      if quiet || forced {
        if !seed.finalizeCandidate {
          seed := seed.(finalizeCandidate := true);
          Emit(Candidate);
          return;
        }
        ConfirmSeed(now, service, forced);
      }
    }

    // The final scan, and the baseline when it moved nothing or the time is up.
    method ConfirmSeed(now: int, service: Service, forced: bool)
      requires Valid() && seed.pending && seed.hasObservation && Now().service == service && now <= clock
      requires seed.finalizeCandidate && Now().armed && forced == (now - seed.firstObserved >= MAX_STABILIZATION_MS)
      requires forced || now - seed.lastChange >= STABILIZATION_MS
      modifies this, slots
      ensures Valid() && clock >= old(clock) && old(trace) <= trace && registry == old(registry)
      ensures SameTick(old(Now()), Now())
      ensures !seed.pending ==>
                Now().phase == Live && Now().published == service.fleets && service.available && Opened(polling, now)
      ensures seed.pending ==>
                seed.started == old(seed).started && seed.lastAttempt == old(seed).lastAttempt && seed.hasObservation
      ensures seed.pending && old(ViewOf(slots[..])) == service.fleets ==> seed.lastChange == old(seed).lastChange
      ensures old(ViewOf(slots[..])) == service.fleets ==> ViewOf(slots[..]) == service.fleets
      ensures forall i: Slot ::
                || slots[i] == old(slots[i])
                || Rescanned(old(slots[i]), slots[i], service.fleets[i], registry.subscriptions, now)
      ensures !seed.pending == (service.available && (forced || old(ViewOf(slots[..])) == service.fleets))
    {
      var available := ScanManager(service, false, false);
      if !forced && now - seed.lastChange < STABILIZATION_MS {
        seed := seed.(finalizeCandidate := false);
        return;
      }
      if available || !seed.managerBacked {
        EndSeed(now, service);
      }
    }

    // Ends the seeding. What was ever observed was observed with the service at hand, so by then
    // the service is there.
    method EndSeed(now: int, service: Service)
      requires Valid() && seed.pending && seed.hasObservation && Now().armed
      requires Now().service == service && service.available && ViewOf(slots[..]) == Now().lastScan == service.fleets
      requires Quiet(Now(), now) || Overdue(Now(), now)
      modifies this`seed, this`polling, this`trace, this`run
      ensures Valid() && old(trace) <= trace && !seed.pending && Now().phase == Live && Now().published == service.fleets
      ensures SameTick(old(Now()), Now())
      ensures Opened(polling, now)
    {
      seed := seed.(pending := false);
      polling := polling.(lastManagerProbe := now, lastFastPoll := if polling.fastCount > 0 then now else 0);
      Emit(Baseline(now, ViewOf(slots[..])));
    }

    method TickSeeding(now: int, service: Service)
      requires Valid() && seed.pending && Now().service == service && now == clock
      requires seed.finalizeCandidate ==> Now().armed
      modifies this, slots
      ensures Valid() && clock >= old(clock) && old(trace) <= trace && registry == old(registry)
      ensures SameTick(old(Now()), Now())
      ensures SeedingProgress(old(seed), old(slots[..]), seed, slots[..], Now(), service, registry.subscriptions, now)
      ensures SeedPace(old(seed), old(slots[..]), seed, polling, slots[..], Now(), service, now)
    {
      if seed.started == 0 {
        seed := seed.(started := now);
      }
      var lifetime := now - seed.started;
      var reset := AttemptSeed(now, service);
      if reset {
        LostTick(old(seed), old(slots[..]), seed, polling, slots[..], Now(), service, registry.subscriptions, now);
        return;
      }
      if seed.hasObservation {
        FinishTick(now, service, old(seed), old(slots[..]));
      } else {
        GiveUpWhenOld(now, lifetime, service, old(seed), old(slots[..]));
      }
    }

    // The rest of the tick, once something was observed.
    method FinishTick(now: int, service: Service, ghost was: Seed, ghost table: Table)
      requires Valid() && seed.pending && seed.hasObservation && Now().service == service && now <= clock
      requires seed.finalizeCandidate ==> Now().armed
      requires var begun := was.(started := if was.started == 0 then now else was.started);
               && Attempted(begun, table, seed, slots[..], service, registry.subscriptions, now)
               && !(AttemptDue(begun, now) && was.managerBacked && !service.available)
      modifies this, slots
      ensures Valid() && clock >= old(clock) && old(trace) <= trace && registry == old(registry)
      ensures SameTick(old(Now()), Now())
      ensures SeedingProgress(was, table, seed, slots[..], Now(), service, registry.subscriptions, now)
      ensures SeedPace(was, table, seed, polling, slots[..], Now(), service, now)
    {
      FinishSeed(now, service);
      FinishedProgress(was, table, old(seed), old(slots[..]), seed, slots[..], Now(), service, registry.subscriptions, now);
      FinishedPace(was, table, old(seed), old(slots[..]), seed, polling, slots[..], Now(), service,
                   registry.subscriptions, now);
    }

    // The rest of the tick, as long as nothing was observed.
    method GiveUpWhenOld(now: int, lifetime: int, service: Service, ghost was: Seed, ghost table: Table)
      requires Valid() && seed.pending && !seed.hasObservation && Now().service == service && now <= clock
      requires var begun := was.(started := if was.started == 0 then now else was.started);
               && lifetime == now - begun.started
               && Attempted(begun, table, seed, slots[..], service, registry.subscriptions, now)
               && !(AttemptDue(begun, now) && was.managerBacked && !service.available)
      modifies this`seed, this`polling, this`trace, this`run
      ensures Valid() && old(trace) <= trace
      ensures SameTick(old(Now()), Now())
      ensures SeedingProgress(was, table, seed, slots[..], Now(), service, registry.subscriptions, now)
      ensures SeedPace(was, table, seed, polling, slots[..], Now(), service, now)
    {
      if lifetime >= SEED_LIFETIME_MS {
        seed := seed.(pending := false);
        polling := polling.(lastManagerDiscovery := now);
        Emit(GaveUp);
      }
      UnseenTick(was, table, old(seed), seed, polling, slots[..], Now(), service, registry.subscriptions, now);
    }

    // -------------------------------------------------------------------------------
    // Tick after seeding
    // -------------------------------------------------------------------------------

    static predicate ProbeDue(polling: Polling, now: int) {
      polling.lastManagerProbe == 0 || now - polling.lastManagerProbe >= MANAGER_PROBE_INTERVAL_MS
    }

    static predicate DiscoveryDue(polling: Polling, now: int) {
      polling.lastManagerDiscovery == 0 || now - polling.lastManagerDiscovery >= MANAGER_DISCOVERY_INTERVAL_MS
    }

    // Looks at one slot in turn. A lost service or a changed slot restarts the seeding.
    method Probe(now: int, service: Service) returns (restart: bool)
      requires Valid() && Now().phase == Live && Now().service == service && now <= clock
      modifies this, slots
      ensures Valid() && clock >= old(clock) && old(trace) <= trace && registry == old(registry)
      ensures SameTick(old(Now()), Now())
      ensures restart == (!service.available
                || !SameTopology(old(slots[polling.probeSlot]).Held(), service.fleets[old(polling.probeSlot)]))
      ensures restart ==> AfterRestart(seed, slots[..], now) && forall i: Slot :: slots[i] == EMPTY
      ensures !restart ==>
        && Now().phase == Live && polling.probeSlot == (old(polling.probeSlot) + 1) % SLOT_COUNT
        && slots[old(polling.probeSlot)].Held() == service.fleets[old(polling.probeSlot)]
        && slots[..] == old(slots[..])[old(polling.probeSlot) := slots[old(polling.probeSlot)]]
        && Probed(old(slots[polling.probeSlot]), slots[old(polling.probeSlot)], service.fleets[old(polling.probeSlot)],
                  registry.subscriptions, old(clock))
        && polling == old(polling).(lastManagerProbe := now, probeSlot := polling.probeSlot, fastCount := polling.fastCount,
                                    lastFastPoll := polling.lastFastPoll)
        && (polling.lastFastPoll == old(polling).lastFastPoll
            || (polling.lastFastPoll == 0 && polling.fastCount == 1 && slots[old(polling.probeSlot)].FastPolling()))
    {
      polling := polling.(lastManagerProbe := now);
      restart := true;
      if !service.available {
        ResetObservation();
        return;
      }
      var slot := polling.probeSlot;
      polling := polling.(probeSlot := (slot + 1) % SLOT_COUNT);
      var fleet := service.fleets[slot];
      if slots[slot].occupied != fleet.Some? || (fleet.Some? && slots[slot].fleet != fleet.value.fleet) {
        ResetObservation();
        return;
      }
      restart := false;
      if fleet.Some? {
        ghost var restarted := ObserveFleet(fleet, slot, true);
      }
    }

    // Ends fast polling that has lasted a day, and says whether any began in the last half minute.
    method ExpireFastPolls(now: int) returns (fastPeriod: bool)
      requires Valid() && Now().phase == Live
      modifies this`polling, this`trace, this`run, slots
      ensures Valid() && old(trace) <= trace && Now().phase == Live && SameTick(old(Now()), Now())
      ensures polling == old(polling).(fastCount := polling.fastCount)
      ensures forall i: Slot :: slots[i] == Expired(old(slots[i]), now)
      ensures fastPeriod <==> exists i: Slot :: slots[i].FastPolling() && now - slots[i].fastPollStarted < FAST_POLL_PERIOD_MS
    {
      fastPeriod := false;
      for slot := 0 to SLOT_COUNT
        invariant Valid() && old(trace) <= trace && Now().phase == Live && SameTick(old(Now()), Now())
        invariant polling == old(polling).(fastCount := polling.fastCount)
        invariant forall i: Slot :: slots[i] == if i < slot then Expired(old(slots[i]), now) else old(slots[i])
        invariant fastPeriod <==>
                    exists i: Slot ::
                      i < slot && slots[i].FastPolling() && now - slots[i].fastPollStarted < FAST_POLL_PERIOD_MS
      {
        if !slots[slot].occupied || slots[slot].fastPollStarted == 0 {
          continue;
        }
        var lifetime := now - slots[slot].fastPollStarted;
        if lifetime >= FAST_POLL_LIFETIME_MS {
          ExpireSlot(slot);
        } else if lifetime < FAST_POLL_PERIOD_MS {
          fastPeriod := true;
        }
      }
    }

    method ExpireSlot(slot: Slot)
      requires Valid() && Now().phase == Live && slots[slot].FastPolling()
      modifies this`polling, this`trace, this`run, slots
      ensures Valid() && old(trace) <= trace && Now().phase == Live && SameTick(old(Now()), Now())
      ensures polling == old(polling).(fastCount := polling.fastCount)
      ensures slots[..] == old(slots[..])[slot := old(slots[slot]).(fastPollStarted := 0, fastPollExhausted := true)]
    {
      var spent := slots[slot].(fastPollStarted := 0, fastPollExhausted := true);
      FastCountUpdate(slots[..], slot, spent);
      slots[slot] := spent;
      polling := polling.(fastCount := polling.fastCount - 1);
      assert slots[..] == old(slots[..])[slot := spent];
      assert ViewOf(slots[..]) == old(ViewOf(slots[..]));
      Emit(Exhausted(slot, slots[slot].Held().value));
    }

    // The fast-poll part of a tick: expire, then look at the fast-polled slots when due.
    method PollFast(now: int, service: Service)
      requires Valid() && !seed.pending && Now().service == service && now <= clock
      modifies this, slots
      ensures Valid() && clock >= old(clock) && old(trace) <= trace && registry == old(registry)
      ensures SameTick(old(Now()), Now())
      ensures NoneOverdue(slots[..], now)
      ensures FastProgress(old(slots[..]), old(polling), seed, slots[..], service, now)
      ensures !seed.pending ==>
                && seed.managerBacked == old(seed).managerBacked
                && FastPace(old(slots[..]), old(polling), slots[..], polling, service, registry.subscriptions, now)
    {
      FastCountZero(slots[..]);
      if polling.fastCount <= 0 {
        IdlePace(slots[..], polling, slots[..], polling, service, registry.subscriptions, now);
        FastIdle(slots[..], polling, seed, slots[..], service, now);
        return;
      }
      PollActive(now, service);
    }

    // ... when some slot is fast-polled.
    method PollActive(now: int, service: Service)
      requires Valid() && !seed.pending && Now().service == service && now <= clock && polling.fastCount > 0
      modifies this, slots
      ensures Valid() && clock >= old(clock) && old(trace) <= trace && registry == old(registry)
      ensures SameTick(old(Now()), Now())
      ensures NoneOverdue(slots[..], now)
      ensures FastProgress(old(slots[..]), old(polling), seed, slots[..], service, now)
      ensures !seed.pending ==>
                && seed.managerBacked == old(seed).managerBacked
                && FastPace(old(slots[..]), old(polling), slots[..], polling, service, registry.subscriptions, now)
    {
      FastCountZero(slots[..]);
      NothingIsEmpty(slots[..]);
      var fastPeriod := ExpireFastPolls(now);
      ghost var expired := slots[..];
      FastCountZero(expired);
      var interval := if fastPeriod then FAST_POLL_INTERVAL_MS else FAST_POLL_BACKOFF_MS;
      var due := polling.lastFastPoll == 0 || now - polling.lastFastPoll >= interval;
      ExpiredDue(old(slots[..]), expired, old(polling), now, fastPeriod);
      if polling.fastCount > 0 && due {
        ScanFast(now, service, old(slots[..]), old(polling));
      } else {
        FastIdle(old(slots[..]), old(polling), seed, slots[..], service, now);
        IdlePace(old(slots[..]), old(polling), slots[..], polling, service, registry.subscriptions, now);
      }
    }

    method ScanFast(now: int, service: Service, ghost table: Table, ghost polling': Polling)
      requires Valid() && !seed.pending && Now().phase == Live && Now().service == service && now <= clock
      requires (forall i: Slot :: slots[i] == Expired(table[i], now)) && FastDue(table, polling', now)
      requires polling == polling'.(fastCount := polling.fastCount)
      modifies this, slots
      ensures Valid() && clock >= old(clock) && old(trace) <= trace && registry == old(registry)
      ensures SameTick(old(Now()), Now())
      ensures NoneOverdue(slots[..], now)
      ensures FastProgress(table, polling', seed, slots[..], service, now)
      ensures !seed.pending ==>
                && seed.managerBacked == old(seed).managerBacked
                && FastPace(table, polling', slots[..], polling, service, registry.subscriptions, now)
    {
      ghost var expired, at := slots[..], clock;
      polling := polling.(lastFastPoll := now);
      var available := ScanManager(service, true, true);
      if available {
        FastScanned(table, expired, polling', seed, slots[..], service, registry.subscriptions, now, at);
        if !seed.pending {
          ScannedPace(table, expired, polling', slots[..], polling, service, registry.subscriptions, now, at);
        }
      } else {
        FastIdle(table, polling', seed, slots[..], service, now);
        IdlePace(table, polling', slots[..], polling, service, registry.subscriptions, now);
      }
    }

    method TickLive(now: int, service: Service)
      requires Valid() && !seed.pending && Now().service == service && now == clock
      modifies this, slots
      ensures Valid() && clock >= old(clock) && old(trace) <= trace && registry == old(registry)
      ensures SameTick(old(Now()), Now())
      ensures NoneOverdue(slots[..], now)
      ensures LiveProgress(old(seed), old(polling), old(slots[..]), seed, slots[..], service, registry.subscriptions, now)
      ensures LivePace(old(seed), old(polling), old(slots[..]), seed, polling, slots[..], service, registry.subscriptions, now)
    {
      ghost var table := slots[..];
      if !seed.managerBacked && DiscoveryDue(polling, now) {
        polling := polling.(lastManagerDiscovery := now);
        if service.available {
          ResetObservation();
          RestartedProgress(old(seed), old(polling), table, seed, slots[..], service, registry.subscriptions, now);
          return;
        }
      }
      if seed.managerBacked && ProbeDue(polling, now) {
        ProbeAndPoll(now, service);
      } else {
        ghost var polling' := polling;
        PollFast(now, service);
        UnprobedProgress(old(seed), old(polling), polling', table, seed, slots[..], service, registry.subscriptions, now);
        UnprobedPace(old(seed), old(polling), polling', table, seed, polling, slots[..], service,
                     registry.subscriptions, now);
      }
    }

    // A tick that probes: the fast-poll part comes only when the probe does not restart.
    method ProbeAndPoll(now: int, service: Service)
      requires Valid() && !seed.pending && Now().service == service && now == clock
      requires seed.managerBacked && ProbeDue(polling, now)
      modifies this, slots
      ensures Valid() && clock >= old(clock) && old(trace) <= trace && registry == old(registry)
      ensures SameTick(old(Now()), Now())
      ensures NoneOverdue(slots[..], now)
      ensures LiveProgress(old(seed), old(polling), old(slots[..]), seed, slots[..], service, registry.subscriptions, now)
      ensures LivePace(old(seed), old(polling), old(slots[..]), seed, polling, slots[..], service, registry.subscriptions, now)
    {
      ghost var table, at := slots[..], clock;
      var restart := Probe(now, service);
      if restart {
        RestartedProgress(old(seed), old(polling), table, seed, slots[..], service, registry.subscriptions, now);
        return;
      }
      ghost var between, polling' := slots[..], polling;
      PollFast(now, service);
      ProbedProgress(old(seed), old(polling), table, between[old(polling.probeSlot)], polling', seed, slots[..], service,
                     registry.subscriptions, now, at);
      ProbedPace(old(seed), old(polling), table, between[old(polling.probeSlot)], polling', seed, polling, slots[..],
                 service, registry.subscriptions, now, at);
    }

    // The whole tick, driven once per screen update.
    method Tick(service: Service)
      requires Valid()
      modifies this, slots
      ensures Valid() && clock >= old(clock) && old(trace) <= trace && registry == old(registry)
      ensures registry.subscriptions == [] ==> unchanged(this, slots)
      ensures registry.subscriptions != [] ==>
        && |trace| > |old(trace)| && trace[|old(trace)|].TickStart? && trace[|old(trace)|].service == service
        && old(clock) <= trace[|old(trace)|].now <= clock && Now().ticks == old(Now()).ticks + 1
        && var now := trace[|old(trace)|].now;
           AllWanted(old(slots[..]), registry.subscriptions) &&
           if old(seed.pending) then
             && SeedingProgress(old(seed), old(slots[..]), seed, slots[..], Now(), service, registry.subscriptions, now)
             && SeedPace(old(seed), old(slots[..]), seed, polling, slots[..], Now(), service, now)
           else
             && LivePace(old(seed), old(polling), old(slots[..]), seed, polling, slots[..], service, registry.subscriptions, now)
             && LiveProgress(old(seed), old(polling), old(slots[..]), seed, slots[..], service, registry.subscriptions, now)
             && NoneOverdue(slots[..], now)
    {
      if registry.subscriptions == [] {
        return;
      }
      var now := ReadClock();
      Emit(TickStart(now, service));
      if seed.pending {
        TickSeeding(now, service);
      } else {
        TickLive(now, service);
      }
    }

    // Registers a subscriber; the first one installs the observer and starts the seeding.
    method Subscribe(subscription: Subscription, installs: bool) returns (accepted: bool)
      requires Valid()
      modifies this, slots
      ensures Valid() && clock >= old(clock) && old(trace) <= trace
      ensures accepted <==>
        (&& subscription.onTransition != 0
         && (forall s :: s in old(registry.subscriptions) ==> s.onTransition != subscription.onTransition)
         && (old(registry.observerInstalled) || installs))
      ensures registry == if accepted then Registry(old(registry).subscriptions + [subscription], true) else old(registry)
      ensures accepted && !old(registry.observerInstalled) ==>
                seed.pending && seed.lastAttempt == 0 && trace == old(trace) + [Event.Reset]
      ensures !accepted || old(registry.observerInstalled) ==>
                trace == old(trace) && clock == old(clock) && Snap() == old(Snap())
    {
      accepted := false;
      if subscription.onTransition == 0 {
        return;
      }
      for i := 0 to |registry.subscriptions|
        invariant forall k :: 0 <= k < i ==> registry.subscriptions[k].onTransition != subscription.onTransition
      {
        if registry.subscriptions[i].onTransition == subscription.onTransition {
          return;
        }
      }
      if !registry.observerInstalled {
        if !installs {
          return;
        }
        registry := registry.(observerInstalled := true);
        ResetObservation();
      }
      MoreWanted(slots[..], registry.subscriptions, subscription);
      registry := registry.(subscriptions := registry.subscriptions + [subscription]);
      accepted := true;
    }

    // A restart, whatever slot caused it, forgets that fast polling ran out: when the next tick
    // finds the same fleet in the same state, the slot is fast-polled again exactly when some
    // subscriber wants that. Without a restart the slot stays as it is.
    method RestartForgetsExhaustion(slot: Slot, entry: Entry, service: Service, next: Service) returns (ghost restarted: bool)
      requires Valid() && registry.subscriptions != [] && !seed.pending && clock > 0
      requires slots[slot].Held() == Some(entry) && slots[slot].fastPollExhausted
      requires next.available && next.fleets[slot] == Some(entry)
      modifies this, slots
      ensures Valid() && registry == old(registry) && |trace| > |old(trace)| && trace[|old(trace)|].TickStart?
      ensures restarted <==> LiveRestarts(old(seed), old(polling), old(slots[..]), service, registry.subscriptions,
                                          trace[|old(trace)|].now)
      ensures restarted ==>
        slots[slot].Held() == Some(entry) && (slots[slot].FastPolling() <==> Wants(registry.subscriptions, entry.state))
      ensures !restarted && service.fleets[slot] == Some(entry) ==> (slots[slot].fastPollExhausted <==> !seed.pending)
    {
      ghost var before := trace;
      Tick(service);
      restarted := seed.pending;
      ghost var between := trace;
      assert slots[slot].Spent() == None || !restarted;
      Tick(next);
      assert trace[|before|] == between[|before|];
    }
  }
}
