// What Fleet Watch may be seen to do, stated over the trace of its events alone.
//
// A Monitor reads a trace from left to right and says of each event whether it is allowed
// next. FleetWatch keeps every trace it produces within these rules; the theorems at the end
// of this module turn "within the rules" into statements about positions in the trace that
// do not mention the Monitor.
module FleetTrace {
  import opened Options

  const SLOT_COUNT := 10
  const STABILIZATION_MS := 5000
  const MAX_STABILIZATION_MS := 30000

  type Slot = i: int | 0 <= i < SLOT_COUNT

  // What the fleet service reports for one occupied slot.
  datatype Entry = Entry(fleet: nat, state: int)

  const NOTHING: seq<Option<Entry>> := [None, None, None, None, None, None, None, None, None, None]

  type View = v: seq<Option<Entry>> | |v| == SLOT_COUNT witness NOTHING

  // Whether the fleet manager exists and has its fleet service, and what each slot holds.
  datatype Service = Service(available: bool, fleets: View)

  datatype Event =
    | TickStart(now: int, service: Service)        // the service does not change within a tick
    | Reset
    | Seen(slot: Slot, entry: Entry)               // a fleet was observed in a slot
    | Vacated(slot: Slot)                          // a slot of the table was cleared
    | Armed(slot: Slot, entry: Entry)              // fast polling of a slot began
    | Exhausted(slot: Slot, entry: Entry)          // fast polling of a slot ran out
    | Scanned(at: int, found: View, left: View)      // one pass over the service was completed
    | Candidate                                    // the finalize candidate was set
    | Baseline(now: int, view: View)               // announced to subscribers
    | Transition(slot: Slot, fleet: nat, before: int, after: int)  // announced to subscribers
    | GaveUp                                       // seeding ended without a fleet service

  datatype Phase = Dormant | Seeding | Live

  datatype Monitor = Monitor(
    phase: Phase,
    service: Service,         // as of the current tick
    published: View,          // what subscribers know, while Live
    due: Option<Event>,       // an event that has to come next
    candidate: bool,          // a candidate was set since the last reset
    armed: bool,              // ... in an earlier tick
    firstScan: Option<int>,   // time of the first scan since the last reset
    lastChange: Option<int>,  // latest time of a scan since then that changed the table
    lastScan: View,           // what the latest scan since then left in the table
    spent: View,              // slots whose fast polling ran out, with what they then held
    ticks: nat)               // how many ticks have started

  const START := Monitor(Dormant, Service(false, NOTHING), NOTHING, None, false, false, None, None, NOTHING, NOTHING, 0)

  function DueAfterSeeing(m: Monitor, slot: Slot, entry: Entry): Option<Event> {
    if m.phase != Live || m.published[slot] == Some(entry) then None
    else if m.published[slot].Some? && m.published[slot].value.fleet == entry.fleet then
      Some(Transition(slot, entry.fleet, m.published[slot].value.state, entry.state))
    else Some(Reset)
  }

  predicate Quiet(m: Monitor, now: int) {
    m.lastChange.Some? ==> m.lastChange.value + STABILIZATION_MS <= now
  }

  predicate Overdue(m: Monitor, now: int) {
    m.firstScan.Some? && m.firstScan.value + MAX_STABILIZATION_MS <= now
  }

  predicate Allowed(m: Monitor, e: Event) {
    && (m.due.Some? ==> e == m.due.value)
    && match e
       case Transition(_, _, _, _) => m.due == Some(e)
       case Seen(slot, entry) => m.service.fleets[slot] == Some(entry)
       case Baseline(now, view) =>
         && m.phase == Seeding && m.armed && m.firstScan.Some?
         && view == m.lastScan == m.service.fleets && m.service.available
         && (Quiet(m, now) || Overdue(m, now))
       case Candidate => m.phase == Seeding
       case GaveUp => m.phase == Seeding && m.firstScan.None?
       case Armed(slot, entry) => m.spent[slot] != Some(entry)
       case Exhausted(slot, entry) => m.phase == Live && m.published[slot] == Some(entry)
       case Vacated(slot) => m.phase == Live ==> m.published[slot].None?
       case _ => true
  }

  function AfterReset(m: Monitor): Monitor {
    START.(phase := Seeding, service := m.service, ticks := m.ticks)
  }

  function Step(was: Monitor, e: Event): Monitor {
    var m := was.(due := None);
    match e
    case TickStart(_, service) => m.(service := service, armed := m.armed || m.candidate, ticks := m.ticks + 1)
    case Reset => AfterReset(m)
    case Seen(slot, entry) =>
      m.(due := DueAfterSeeing(m, slot, entry),
         spent := if m.spent[slot] == Some(entry) then m.spent else m.spent[slot := None])
    case Vacated(slot) => m.(spent := m.spent[slot := None])
    case Armed(_, _) => m
    case Exhausted(slot, entry) => m.(spent := m.spent[slot := Some(entry)])
    case Scanned(at, found, left) =>
      m.(firstScan := if m.firstScan.None? then Some(at) else m.firstScan,
         lastChange := if found == left then m.lastChange
                       else if m.lastChange.Some? && m.lastChange.value > at then m.lastChange
                       else Some(at),
         lastScan := left)
    case Candidate => m.(candidate := true)
    case Baseline(_, view) => m.(phase := Live, published := view)
    case Transition(slot, fleet, _, after) =>
      m.(published := m.published[slot := Some(Entry(fleet, after))])
    case GaveUp => m.(phase := Dormant)
  }

  // run is the Monitor's record over t: every event is allowed where it stands.
  ghost predicate Accepts(t: seq<Event>, run: seq<Monitor>) {
    && |run| == |t| + 1 && run[0] == START
    && forall i :: 0 <= i < |t| ==> Allowed(run[i], t[i]) && run[i + 1] == Step(run[i], t[i])
  }

  predicate PublishesSlot(e: Event, slot: Slot) {
    e.Transition? && e.slot == slot
  }

  function KnownAfter(e: Event, slot: Slot, known: Option<Entry>): Option<Entry> {
    if PublishesSlot(e, slot) then Some(Entry(e.fleet, e.after)) else known
  }

  // One step of the Monitor, seen from its result.
  lemma StepBackwards(m: Monitor, e: Event)
    requires Allowed(m, e)
    ensures var n := Step(m, e);
      && (n.phase == Live ==> (e.Baseline? && n.published == e.view) || (m.phase == Live && !e.Baseline?))
      && (n.phase == Live && e.Reset? ==> false)
      && (n.phase == Seeding ==> e.Reset? || m.phase == Seeding)
      && (n.phase == Live && !e.Baseline? ==>
            forall slot: Slot :: n.published[slot] == KnownAfter(e, slot, m.published[slot]))
      && (n.due.Some? ==> e.Seen? && n.phase == m.phase == Live && n.due == DueAfterSeeing(m, e.slot, e.entry))
  {
  }

  // ---------------------------------------------------------------------------------
  // Statements about positions in a trace
  // ---------------------------------------------------------------------------------

  ghost predicate NoReset(t: seq<Event>, lo: int, hi: int)
    requires -1 <= lo && hi <= |t|
  {
    forall k :: lo < k < hi ==> !t[k].Reset?
  }

  // Position hi lies after the baseline at b with no reset and no other baseline between.
  ghost predicate LiveFrom(t: seq<Event>, b: int, hi: int)
    requires hi <= |t|
  {
    && 0 <= b < hi && t[b].Baseline? && NoReset(t, b, hi)
    && forall k :: b < k < hi ==> !t[k].Baseline?
  }

  // The latest state published for slot between the baseline at b and position hi: the
  // baselined one when no transition of the slot was published, else the last one's after.
  ghost predicate LastPublished(t: seq<Event>, b: int, hi: int, slot: Slot, known: Option<Entry>)
    requires hi <= |t| && LiveFrom(t, b, hi)
  {
    || (known == t[b].view[slot] && forall k :: b < k < hi ==> !PublishesSlot(t[k], slot))
    || (exists k :: b < k < hi && PublishesSlot(t[k], slot)
          && known == Some(Entry(t[k].fleet, t[k].after))
          && forall n :: k < n < hi ==> !PublishesSlot(t[n], slot))
  }

  lemma LastPublishedExtends(t: seq<Event>, b: int, hi: int, slot: Slot, known: Option<Entry>)
    requires 0 <= hi < |t| && LiveFrom(t, b, hi) && LiveFrom(t, b, hi + 1)
    requires LastPublished(t, b, hi, slot, known)
    ensures LastPublished(t, b, hi + 1, slot, KnownAfter(t[hi], slot, known))
  {
    if PublishesSlot(t[hi], slot) {
      assert b < hi < hi + 1;
    } else if k :| b < k < hi && PublishesSlot(t[k], slot)
                   && known == Some(Entry(t[k].fleet, t[k].after))
                   && forall n :: k < n < hi ==> !PublishesSlot(t[n], slot) {
      assert forall n :: k < n < hi + 1 ==> !PublishesSlot(t[n], slot);
    }
  }

  ghost predicate PublishedSince(t: seq<Event>, b: int, hi: int, known: View)
    requires hi <= |t|
  {
    LiveFrom(t, b, hi) && forall slot: Slot :: LastPublished(t, b, hi, slot, known[slot])
  }

  lemma StepPublishes(t: seq<Event>, b: int, hi: nat, m: Monitor) returns (b': int)
    requires hi < |t| && Allowed(m, t[hi]) && Step(m, t[hi]).phase == Live
    requires m.phase == Live ==> PublishedSince(t, b, hi, m.published)
    ensures PublishedSince(t, b', hi + 1, Step(m, t[hi]).published)
  {
    StepBackwards(m, t[hi]);
    if t[hi].Baseline? {
      b' := hi;
    } else {
      b' := b;
      forall slot: Slot ensures LastPublished(t, b, hi + 1, slot, Step(m, t[hi]).published[slot]) {
        LastPublishedExtends(t, b, hi, slot, m.published[slot]);
      }
    }
  }

  lemma {:induction false} LiveHasBaseline(t: seq<Event>, run: seq<Monitor>, hi: nat) returns (b: int)
    requires Accepts(t, run) && hi <= |t| && run[hi].phase == Live
    ensures PublishedSince(t, b, hi, run[hi].published)
  {
    b := 0;
    if hi == 0 {
      assert false;
    } else {
      if run[hi - 1].phase == Live {
        b := LiveHasBaseline(t, run, hi - 1);
      }
      b := StepPublishes(t, b, hi - 1, run[hi - 1]);
    }
  }

  lemma DueComesFromSeeing(t: seq<Event>, run: seq<Monitor>, hi: nat) returns (was: Monitor)
    requires Accepts(t, run) && 0 < hi <= |t| && run[hi].due.Some?
    ensures was == run[hi - 1] && was.phase == Live == run[hi].phase
    ensures t[hi - 1].Seen? && run[hi].published == was.published
    ensures run[hi].due == DueAfterSeeing(was, t[hi - 1].slot, t[hi - 1].entry)
  {
    was := run[hi - 1];
    StepBackwards(was, t[hi - 1]);
  }

  // Every published transition follows a baseline with no reset between; its before is what
  // the slot was last published (or baselined) to hold, under the same fleet id; it differs
  // from its after; and the event just before it is the observation it reports.
  lemma TransitionContinuesChain(t: seq<Event>, run: seq<Monitor>, i: nat) returns (b: int)
    requires Accepts(t, run) && i < |t| && t[i].Transition?
    ensures LiveFrom(t, b, i)
    ensures LastPublished(t, b, i, t[i].slot, Some(Entry(t[i].fleet, t[i].before)))
    ensures t[i].before != t[i].after
    ensures b < i - 1 && t[i - 1] == Seen(t[i].slot, Entry(t[i].fleet, t[i].after))
  {
    var _ := DueComesFromSeeing(t, run, i);
    b := LiveHasBaseline(t, run, i);
  }

  lemma {:induction false} ServiceOfTick(t: seq<Event>, run: seq<Monitor>, hi: nat) returns (k: int)
    requires Accepts(t, run) && hi <= |t|
    ensures -1 <= k < hi && forall n :: k < n < hi ==> !t[n].TickStart?
    ensures if k < 0 then run[hi].service == START.service
            else t[k].TickStart? && run[hi].service == t[k].service
  {
    k := -1;
    if hi > 0 {
      k := ServiceOfTick(t, run, hi - 1);
      if t[hi - 1].TickStart? {
        k := hi - 1;
      }
    }
  }

  // What is announced at position i is what the service reports in the tick that began at k.
  ghost predicate ReportedAt(t: seq<Event>, k: int, i: int)
    requires 0 <= i < |t|
  {
    && 0 <= k < i && t[k].TickStart? && (forall n :: k < n < i ==> !t[n].TickStart?)
    && (t[i].Baseline? ==> t[k].service.available && t[i].view == t[k].service.fleets)
    && (t[i].Transition? ==> t[k].service.fleets[t[i].slot] == Some(Entry(t[i].fleet, t[i].after)))
  }

  // What is announced is what the service reports in the tick that announces it.
  lemma EventsReportService(t: seq<Event>, run: seq<Monitor>, i: nat) returns (k: int)
    requires Accepts(t, run) && i < |t| && (t[i].Baseline? || t[i].Transition?)
    ensures ReportedAt(t, k, i)
  {
    k := ServiceOfTick(t, run, i);
    if t[i].Transition? {
      var was := DueComesFromSeeing(t, run, i);
      var j := ServiceOfTick(t, run, i - 1);
    }
  }

  // A position after a baseline with no reset between is one the Monitor calls Live.
  lemma {:induction false} LiveAfterBaseline(t: seq<Event>, run: seq<Monitor>, b: int, hi: nat)
    requires Accepts(t, run) && hi <= |t| && 0 <= b < hi && t[b].Baseline? && NoReset(t, b, hi)
    ensures run[hi].phase == Live
  {
    if b < hi - 1 {
      LiveAfterBaseline(t, run, b, hi - 1);
    }
  }

  // What follows an observation at position i of a slot that was last published to hold known.
  ghost predicate PublishedNext(t: seq<Event>, i: int, known: Option<Entry>)
    requires 0 <= i < |t| && t[i].Seen?
  {
    && (known != Some(t[i].entry) ==> i + 1 < |t|)
    && (i + 1 < |t| ==>
          && (t[i + 1].Transition? <==> known.Some? && known.value.fleet == t[i].entry.fleet
                                        && known.value.state != t[i].entry.state)
          && (t[i + 1].Transition? ==>
                t[i + 1] == Transition(t[i].slot, t[i].entry.fleet, known.value.state, t[i].entry.state))
          && (known.None? || known.value.fleet != t[i].entry.fleet ==> t[i + 1].Reset?))
  }

  // Between a baseline and the next reset no observed change of state is dropped: an
  // observation that differs from what was last published for its slot is followed at once
  // by the transition that publishes it, or, when the slot then held another fleet or none,
  // by a reset. One that does not differ publishes nothing.
  lemma SeenIsPublished(t: seq<Event>, run: seq<Monitor>, i: nat) returns (b: int, known: Option<Entry>)
    requires Accepts(t, run) && run[|t|].due.None?
    requires i < |t| && t[i].Seen?
    requires exists b :: 0 <= b < i && t[b].Baseline? && NoReset(t, b, i)
    ensures LiveFrom(t, b, i) && LastPublished(t, b, i, t[i].slot, known)
    ensures PublishedNext(t, i, known)
  {
    var b0 :| 0 <= b0 < i && t[b0].Baseline? && NoReset(t, b0, i);
    LiveAfterBaseline(t, run, b0, i);
    b := LiveHasBaseline(t, run, i);
    known := run[i].published[t[i].slot];
  }

  lemma BaselineOncePerReset(t: seq<Event>, run: seq<Monitor>, i: nat, k: nat)
    requires Accepts(t, run) && i < k < |t| && t[i].Baseline? && t[k].Baseline?
    ensures exists r :: i < r < k && t[r].Reset?
  {
    if NoReset(t, i, k) {
      LiveAfterBaseline(t, run, i, k);
    }
  }

  ghost predicate Remembers(t: seq<Event>, start: int, hi: int, m: Monitor)
    requires -1 <= start && hi <= |t|
  {
    && (forall s :: start < s < hi && t[s].Scanned? && t[s].found != t[s].left ==>
          m.lastChange.Some? && t[s].at <= m.lastChange.value)
    && (m.firstScan.Some? ==>
          exists s :: start < s < hi && t[s].Scanned? && t[s].at == m.firstScan.value)
    && (m.candidate ==> exists c :: start < c < hi && t[c].Candidate?)
    && (m.armed ==> exists c, k :: start < c < k < hi && t[c].Candidate? && t[k].TickStart?)
  }

  lemma StepRemembers(t: seq<Event>, start: int, hi: nat, m: Monitor) returns (start': int)
    requires -1 <= start < hi < |t| && Remembers(t, start, hi, m) && Allowed(m, t[hi])
    ensures start' == if t[hi].Reset? then hi else start
    ensures Remembers(t, start', hi + 1, Step(m, t[hi]))
  {
    start' := if t[hi].Reset? then hi else start;
    if m.candidate {
      var c :| start < c < hi && t[c].Candidate?;
      assert start < c < hi < hi + 1;
    }
    assert start < hi < hi + 1;
  }

  // What a Monitor remembers of the scans since the last reset.
  lemma {:induction false} ScansRemembered(t: seq<Event>, run: seq<Monitor>, hi: nat) returns (start: int)
    requires Accepts(t, run) && hi <= |t|
    ensures -1 <= start < hi && NoReset(t, start, hi) && (start >= 0 ==> t[start].Reset?)
    ensures run[hi].phase == Seeding ==> start >= 0
    ensures Remembers(t, start, hi, run[hi])
  {
    if hi == 0 {
      start := -1;
    } else {
      start := ScansRemembered(t, run, hi - 1);
      StepBackwards(run[hi - 1], t[hi - 1]);
      start := StepRemembers(t, start, hi - 1, run[hi - 1]);
    }
  }

  // The seeding that began at start had settled, or had lasted long enough, at position i.
  ghost predicate StableSince(t: seq<Event>, start: int, i: int)
    requires 0 <= i < |t| && t[i].Baseline?
  {
    && 0 <= start < i && t[start].Reset? && NoReset(t, start, i)
    && (exists c, k :: start < c < k < i && t[c].Candidate? && t[k].TickStart?)
    && (|| (forall s :: start < s < i && t[s].Scanned? && t[i].now - t[s].at < STABILIZATION_MS ==>
              t[s].found == t[s].left)
        || (exists s :: start < s < i && t[s].Scanned? && t[i].now - t[s].at >= MAX_STABILIZATION_MS))
    && (exists s :: start < s < i && t[s].Scanned?)
  }

  // A baseline is announced only in a tick after one that set the finalize candidate, all
  // since the last reset, and only when every scan of the last five seconds left occupancy,
  // ids and states as they were, or thirty seconds have passed since the first scan.
  lemma BaselineIsStable(t: seq<Event>, run: seq<Monitor>, i: nat) returns (start: int)
    requires Accepts(t, run) && i < |t| && t[i].Baseline?
    ensures StableSince(t, start, i)
  {
    start := ScansRemembered(t, run, i);
  }

  // The slot is known to hold this entry, and that its fast polling ran out is either
  // remembered or about to become irrelevant.
  predicate SpentKnown(m: Monitor, slot: Slot, entry: Entry) {
    && m.phase == Live && m.published[slot] == Some(entry)
    && (m.spent[slot] == Some(entry) || (m.due.Some? && (m.due.value.Reset? || PublishesSlot(m.due.value, slot))))
  }

  lemma SpentStep(m: Monitor, e: Event, slot: Slot, entry: Entry)
    requires Allowed(m, e) && SpentKnown(m, slot, entry) && !e.Reset? && !PublishesSlot(e, slot)
    ensures SpentKnown(Step(m, e), slot, entry)
  {
  }

  // Until a reset or the next transition of its slot, an exhaustion is remembered, and the slot
  // is known to hold what it held then; the only way out is an observation that has to be
  // followed at once by one of the two.
  lemma {:induction false} SpentRemembered(t: seq<Event>, run: seq<Monitor>, hi: nat, slot: Slot, x: nat, entry: Entry)
    requires Accepts(t, run) && x < hi <= |t| && t[x] == Exhausted(slot, entry)
    requires NoReset(t, x, hi) && forall k :: x < k < hi ==> !PublishesSlot(t[k], slot)
    ensures SpentKnown(run[hi], slot, entry)
  {
    assert Allowed(run[hi - 1], t[hi - 1]) && run[hi] == Step(run[hi - 1], t[hi - 1]);
    if x < hi - 1 {
      SpentRemembered(t, run, hi - 1, slot, x, entry);
      SpentStep(run[hi - 1], t[hi - 1], slot, entry);
    }
  }

  // Fast polling that ran out in a slot is not begun again there for the same fleet in the same
  // state before everything was reset or a transition of that slot was published.
  lemma ExhaustedStaysOff(t: seq<Event>, run: seq<Monitor>, x: nat, i: nat)
    requires Accepts(t, run) && x < i < |t|
    requires t[x].Exhausted? && t[i].Armed? && t[i].slot == t[x].slot && t[i].entry == t[x].entry
    ensures exists k :: x < k < i && (t[k].Reset? || PublishesSlot(t[k], t[x].slot))
  {
    if forall k :: x < k < i ==> !t[k].Reset? && !PublishesSlot(t[k], t[x].slot) {
      SpentRemembered(t, run, i, t[x].slot, x, t[x].entry);
    }
  }
}
