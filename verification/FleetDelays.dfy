// How long Fleet Watch may take: bounds in terms of the times of its ticks and of the trace alone.
module FleetDelays {
  import opened Options
  import opened FleetTrace
  import opened FleetWatch

  // One tick of a run: the clock reading it began with, what the service reported, who had
  // subscribed, and the part [from, to) of the trace that it produced. Without a subscriber a
  // tick does nothing.
  datatype TickSpan = TickSpan(now: int, service: Service, subscriptions: seq<Subscription>, from: nat, to: nat)

  // The log of the ticks, against the trace.
  ghost predicate AreTicks(t: seq<Event>, ticks: seq<TickSpan>) {
    && (forall j :: 0 <= j < |ticks| && ticks[j].subscriptions == [] ==> ticks[j].from == ticks[j].to)
    && (forall j :: 0 <= j < |ticks| && ticks[j].subscriptions != [] ==>
          ticks[j].from < ticks[j].to <= |t| && t[ticks[j].from] == TickStart(ticks[j].now, ticks[j].service))
    && (forall j, k :: 0 <= j < k < |ticks| ==> ticks[j].to <= ticks[k].from && ticks[j].now <= ticks[k].now)
  }

  // Tick y comes at least so long after tick x.
  predicate Gap(ticks: seq<TickSpan>, x: nat, y: nat, ms: int) {
    x < y < |ticks| && ticks[y].now - ticks[x].now >= ms
  }

  // Ten ticks after tick i, each at least a quarter of a second after the one before.
  predicate TenTicks(ticks: seq<TickSpan>, i: nat, ks: seq<nat>) {
    |ks| == 10 && ks[9] < |ticks| && Gap(ticks, i, ks[0], 250) && forall m :: 0 <= m < 9 ==> Gap(ticks, ks[m], ks[m + 1], 250)
  }

  // A baseline was announced at b, before tick i was over.
  predicate BaselinedBy(t: seq<Event>, ticks: seq<TickSpan>, b: nat, i: nat) {
    b < |t| && t[b].Baseline? && i < |ticks| && b < ticks[i].to <= |t|
  }

  // ... and ten such ticks follow tick i.
  predicate Watched(t: seq<Event>, ticks: seq<TickSpan>, b: nat, i: nat, ks: seq<nat>) {
    BaselinedBy(t, ticks, b, i) && TenTicks(ticks, i, ks) && ticks[ks[9]].to <= |t|
  }

  // At the end of tick j subscribers know of the slot what the service reports in that tick.
  ghost predicate Shown(t: seq<Event>, ticks: seq<TickSpan>, b: nat, j: nat, slot: Slot) {
    && j < |ticks| && ticks[j].to <= |t| && LiveFrom(t, b, ticks[j].to) && ticks[j].service.available
    && LastPublished(t, b, ticks[j].to, slot, ticks[j].service.fleets[slot])
  }

  // Some tick after x, up to y, shows the slot.
  ghost predicate ShownWithin(t: seq<Event>, ticks: seq<TickSpan>, b: nat, x: nat, y: nat, slot: Slot) {
    exists j :: x < j <= y && Shown(t, ticks, b, j, slot)
  }

  ghost predicate ResetWithin(t: seq<Event>, lo: int, hi: int)
    requires -1 <= lo && hi <= |t|
  {
    exists k :: lo < k < hi && t[k].Reset?
  }

  // While a baseline stands, ten such ticks look at every slot.
  ghost predicate EverySlotShown(t: seq<Event>, ticks: seq<TickSpan>, b: nat, i: nat, ks: seq<nat>) {
    Watched(t, ticks, b, i, ks) && NoReset(t, b, ticks[ks[9]].to) ==>
      forall slot: Slot :: ShownWithin(t, ticks, b, i, ks[9], slot)
  }

  // From tick i on, up to tick k, the service is as given.
  predicate Unchanging(ticks: seq<TickSpan>, i: nat, k: nat, service: Service) {
    k < |ticks| && forall j :: i < j <= k ==> ticks[j].service == service
  }

  ghost predicate Unavailable(ticks: seq<TickSpan>, i: nat, k: nat) {
    k < |ticks| && forall j :: i < j <= k ==> !ticks[j].service.available
  }

  ghost predicate SameFleets(baselined: View, fleets: View) {
    forall slot: Slot :: SameTopology(baselined[slot], fleets[slot])
  }

  // A service that stays as it is, with the fleets that were baselined: nothing is reset, and
  // after ten such ticks what was last announced of every slot is what the service reports.
  ghost predicate EverySlotPublished(t: seq<Event>, ticks: seq<TickSpan>, b: nat, i: nat, ks: seq<nat>, service: Service) {
    Watched(t, ticks, b, i, ks) && NoReset(t, b, ticks[i].to) && ticks[i].now > 0
    && Unchanging(ticks, i, ks[9], service) && service.available && SameFleets(t[b].view, service.fleets) ==>
      && LiveFrom(t, b, ticks[ks[9]].to)
      && forall slot: Slot :: LastPublished(t, b, ticks[ks[9]].to, slot, service.fleets[slot])
  }

  // A lost service is noticed by the next tick a quarter of a second later.
  ghost predicate LossNoticed(t: seq<Event>, ticks: seq<TickSpan>, b: nat, i: nat, k: nat) {
    BaselinedBy(t, ticks, b, i) && Gap(ticks, i, k, 250) && ticks[k].to <= |t| && Unavailable(ticks, i, k) ==>
      ResetWithin(t, b, ticks[k].to)
  }

  // The slot holds other fleets than were baselined, from tick i on.
  ghost predicate Moved(ticks: seq<TickSpan>, i: nat, k: nat, slot: Slot, baselined: Option<Entry>) {
    k < |ticks| && forall j :: i < j <= k ==> !SameTopology(baselined, ticks[j].service.fleets[slot])
  }

  // Other fleets, or another occupancy, are noticed within ten such ticks.
  ghost predicate MoveNoticed(t: seq<Event>, ticks: seq<TickSpan>, b: nat, i: nat, ks: seq<nat>, slot: Slot) {
    Watched(t, ticks, b, i, ks) && Moved(ticks, i, ks[9], slot, t[b].view[slot]) ==> ResetWithin(t, b, ticks[ks[9]].to)
  }

  // ---- Seeding ----

  // A reset since which neither a baseline was announced nor the seeding given up.
  ghost predicate SeedingAt(t: seq<Event>, hi: nat) {
    hi <= |t| && exists r :: 0 <= r < hi && t[r].Reset? && forall k :: r < k < hi ==> !t[k].Baseline? && !t[k].GaveUp?
  }

  // The seeding was given up, and nothing was reset since.
  ghost predicate GivenUpAt(t: seq<Event>, hi: nat) {
    hi <= |t| && exists p :: 0 <= p < hi && t[p].GaveUp? && forall k :: p < k < hi ==> !t[k].Reset?
  }

  ghost predicate BaselineWithin(t: seq<Event>, lo: nat, hi: nat) {
    hi <= |t| && exists k :: lo <= k < hi && t[k].Baseline?
  }

  ghost predicate GaveUpWithin(t: seq<Event>, lo: nat, hi: nat) {
    hi <= |t| && exists k :: lo <= k < hi && t[k].GaveUp?
  }

  // While seeding, with a service that stays as it is: a tick five seconds on has looked, then
  // a tick after five quiet seconds and one more announce the baseline, unless the seeding was
  // given up before that look.
  ghost predicate BaselineInTime(t: seq<Event>, ticks: seq<TickSpan>, a: nat, x: nat, y: nat, c: nat, d: nat, service: Service) {
    Gap(ticks, a, x, 5000) && x < y && Gap(ticks, y, c, 5000) && c < d && Unchanging(ticks, a, d, service)
    && service.available && SeedingAt(t, ticks[a].to) ==>
      GaveUpWithin(t, ticks[a].to, ticks[x].to) || BaselineWithin(t, ticks[a].to, ticks[d].to)
  }

  // While seeding, without a service: after five seconds and another two minutes it is given up.
  ghost predicate GivenUpInTime(t: seq<Event>, ticks: seq<TickSpan>, a: nat, x: nat, y: nat, g: nat) {
    Gap(ticks, a, x, 5000) && x < y && Gap(ticks, y, g, 120000) && ticks[y].now > 0 && Unavailable(ticks, a, g)
    && SeedingAt(t, ticks[a].to) ==>
      GaveUpWithin(t, ticks[a].to, ticks[g].to)
  }

  // Afterwards a service that is there again is discovered within five seconds.
  ghost predicate DiscoveredInTime(t: seq<Event>, ticks: seq<TickSpan>, a: nat, c: nat) {
    Gap(ticks, a, c, 5000) && (forall j :: a < j <= c ==> ticks[j].service.available) && ticks[c].to <= |t|
    && GivenUpAt(t, ticks[a].to) ==>
      ResetWithin(t, ticks[a].to - 1, ticks[c].to)
  }

  // ---- Fast polling ----

  // In tick a a slot went from a state nobody wants fast-polled into one that somebody does.
  ghost predicate BecomesWanted(t: seq<Event>, ticks: seq<TickSpan>, a: nat, p: nat, slot: Slot) {
    && a < |ticks| && ticks[a].from <= p < ticks[a].to <= |t| && t[p].Transition? && t[p].slot == slot
    && !Wants(ticks[a].subscriptions, t[p].before) && Wants(ticks[a].subscriptions, t[p].after)
  }

  // For the next half minute, until its state changes again, a tick a quarter of a second after
  // another has looked at the slot, as long as the service is there and reports a fleet in it.
  ghost predicate FastPolledInTime(t: seq<Event>, ticks: seq<TickSpan>, a: nat, p: nat, slot: Slot, x: nat, c: nat) {
    BecomesWanted(t, ticks, a, p, slot) && ticks[a].now > 0 && a <= x && Gap(ticks, x, c, 250)
    && ticks[c].now - ticks[a].now < 30000 && ticks[c].to <= |t| && NoReset(t, p, ticks[c].to)
    && ticks[x].to <= |t| && (forall k :: p < k < ticks[x].to ==> !PublishesSlot(t[k], slot))
    && (forall j :: x < j <= c ==> ticks[j].service.available && ticks[j].service.fleets[slot].Some?) ==>
      exists b: nat :: ShownWithin(t, ticks, b, x, c, slot)
  }

  // ---- All of it, for all ticks ----

  ghost predicate SlotsInTime(t: seq<Event>, ticks: seq<TickSpan>) {
    && (forall b: nat, i: nat, ks :: EverySlotShown(t, ticks, b, i, ks))
    && (forall b: nat, i: nat, ks, service :: EverySlotPublished(t, ticks, b, i, ks, service))
    && (forall a: nat, p: nat, slot: Slot, x: nat, c: nat :: FastPolledInTime(t, ticks, a, p, slot, x, c))
  }

  ghost predicate ResetsInTime(t: seq<Event>, ticks: seq<TickSpan>) {
    && (forall b: nat, i: nat, k: nat :: LossNoticed(t, ticks, b, i, k))
    && (forall b: nat, i: nat, ks, slot: Slot :: MoveNoticed(t, ticks, b, i, ks, slot))
    && (forall a: nat, c: nat :: DiscoveredInTime(t, ticks, a, c))
  }

  ghost predicate SeedsInTime(t: seq<Event>, ticks: seq<TickSpan>) {
    && (forall a: nat, x: nat, y: nat, c: nat, d: nat, service :: BaselineInTime(t, ticks, a, x, y, c, d, service))
    && (forall a: nat, x: nat, y: nat, g: nat :: GivenUpInTime(t, ticks, a, x, y, g))
  }

  ghost predicate InTime(t: seq<Event>, ticks: seq<TickSpan>) {
    SlotsInTime(t, ticks) && ResetsInTime(t, ticks) && SeedsInTime(t, ticks)
  }
}
