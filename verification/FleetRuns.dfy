// Fleet Watch over whole runs: any sequence of subscriptions and ticks, under any service.
module FleetRuns {
  import opened Options
  import opened FleetTrace
  import opened FleetWatch
  import opened FleetDelays
  import opened FleetTicks

  datatype Command =
    | DoSubscribe(subscription: Subscription, installs: bool)
    | DoTick(service: Service)

  // Every transition of the trace continues an unbroken chain that starts at a baseline.
  ghost predicate TransitionsFollowBaselines(t: seq<Event>) {
    forall i :: 0 <= i < |t| && t[i].Transition? ==>
      exists b :: LiveFrom(t, b, i)
                  && LastPublished(t, b, i, t[i].slot, Some(Entry(t[i].fleet, t[i].before)))
                  && t[i].before != t[i].after && t[i - 1] == Seen(t[i].slot, Entry(t[i].fleet, t[i].after))
  }

  ghost predicate BaselinesAreSeparated(t: seq<Event>) {
    forall i, k :: 0 <= i < k < |t| && t[i].Baseline? && t[k].Baseline? ==> exists r :: i < r < k && t[r].Reset?
  }

  // Every baseline ends a seeding that had settled or lasted long enough.
  ghost predicate BaselinesAreStable(t: seq<Event>) {
    forall i :: 0 <= i < |t| && t[i].Baseline? ==> exists start :: StableSince(t, start, i)
  }

  // No change that was observed after a baseline is dropped.
  ghost predicate ObservationsArePublished(t: seq<Event>) {
    forall i, b0 :: 0 <= b0 < i < |t| && t[i].Seen? && t[b0].Baseline? && NoReset(t, b0, i) ==>
      exists b, known :: LiveFrom(t, b, i) && LastPublished(t, b, i, t[i].slot, known) && PublishedNext(t, i, known)
  }

  ghost predicate EventsAreReported(t: seq<Event>) {
    forall i :: 0 <= i < |t| && (t[i].Baseline? || t[i].Transition?) ==> exists k :: ReportedAt(t, k, i)
  }

  // Fast polling that ran out is not begun again for the same before a reset or a transition.
  ghost predicate ExhaustionLasts(t: seq<Event>) {
    forall x, i :: 0 <= x < i < |t| && t[x].Exhausted? && t[i] == Armed(t[x].slot, t[x].entry) ==>
      exists k :: x < k < i && (t[k].Reset? || PublishesSlot(t[k], t[x].slot))
  }

  ghost predicate Promises(t: seq<Event>) {
    && TransitionsFollowBaselines(t) && BaselinesAreSeparated(t) && BaselinesAreStable(t)
    && ObservationsArePublished(t) && EventsAreReported(t) && ExhaustionLasts(t)
  }

  // The ticks are those commanded, in order, under the services commanded.
  ghost predicate TicksOf(commands: seq<Command>, ticks: seq<TickSpan>) {
    if commands == [] then ticks == [] else
      var before, last := commands[..|commands| - 1], commands[|commands| - 1];
      if last.DoTick? then
        ticks != [] && ticks[|ticks| - 1].service == last.service && TicksOf(before, ticks[..|ticks| - 1])
      else TicksOf(before, ticks)
  }

  // Any run: its trace keeps what was promised of traces, and its ticks what was promised in time.
  method Run(commands: seq<Command>) returns (w: FleetWatch, ghost ticks: seq<TickSpan>)
    ensures fresh(w) && w.Valid()
    ensures Promises(w.trace)
    ensures TicksOf(commands, ticks) && AreTicks(w.trace, ticks) && InTime(w.trace, ticks)
  {
    w := new FleetWatch();
    ticks := [];
    ghost var rests := [Rest(w.Snap(), w.clock)];
    Beginning(w.trace, w.run, rests[0]);
    for n := 0 to |commands|
      invariant fresh(w) && fresh(w.slots) && w.Valid() && TicksOf(commands[..n], ticks)
      invariant Current(w.trace, w.run, ticks, rests, Rest(w.Snap(), w.clock), w.registry.subscriptions)
      invariant w.registry.observerInstalled <==> w.registry.subscriptions != []
    {
      assert commands[..n + 1][..n] == commands[..n];
      match commands[n] {
        case DoSubscribe(subscription, installs) => rests := DoSubscribe(w, subscription, installs, ticks, rests);
        case DoTick(service) =>
          ghost var tick, left := DoTick(w, service, ticks, rests);
          ticks, rests := ticks + [tick], rests + [left];
      }
    }
    assert commands[..|commands|] == commands;
    EveryTraceHolds(w.trace, w.run);
    EveryLogInTime(w.trace, w.run, ticks, rests);
    LogIsOfTicks(w.trace, w.run, ticks, rests);
  }

  lemma Beginning(t: seq<Event>, run: seq<Monitor>, now: Rest)
    requires t == [] && Accepts(t, run) && Sound(now) && run[0] == now.snap.record
    requires now.snap.polling == IDLE_POLLING
    ensures Current(t, run, [], [now], now, [])
  {
  }

  lemma LogIsOfTicks(t: seq<Event>, run: seq<Monitor>, ticks: seq<TickSpan>, rests: seq<Rest>)
    requires Log(t, run, ticks, rests)
    ensures AreTicks(t, ticks)
  {
    forall j | 0 <= j < |ticks|
      ensures if ticks[j].subscriptions == [] then ticks[j].from == ticks[j].to
              else ticks[j].from < ticks[j].to <= |t| && t[ticks[j].from] == TickStart(ticks[j].now, ticks[j].service)
    {
      assert Placed(t, run, ticks, rests, j);
    }
    forall j, k | 0 <= j < k < |ticks| ensures ticks[j].to <= ticks[k].from && ticks[j].now <= ticks[k].now {
      assert Follow(ticks, j, k);
      TimesRise(t, run, ticks, rests, j, k);
    }
  }

  method DoTick(w: FleetWatch, service: Service, ghost ticks: seq<TickSpan>, ghost rests: seq<Rest>)
    returns (ghost tick: TickSpan, ghost left: Rest)
    requires w.Valid() && Current(w.trace, w.run, ticks, rests, Rest(w.Snap(), w.clock), w.registry.subscriptions)
    modifies w, w.slots
    ensures w.Valid() && w.registry == old(w.registry) && tick.service == service
    ensures Current(w.trace, w.run, ticks + [tick], rests + [left], Rest(w.Snap(), w.clock), w.registry.subscriptions)
  {
    ghost var was, t, run := Rest(w.Snap(), w.clock), w.trace, w.run;
    w.Tick(service);
    left := Rest(w.Snap(), w.clock);
    ghost var now := if w.registry.subscriptions == [] then w.clock else w.trace[|t|].now;
    tick := TickSpan(now, service, w.registry.subscriptions, |t|, |w.trace|);
    CurrentTick(t, run, ticks, rests, was, w.trace, w.run, tick, left);
  }

  method DoSubscribe(w: FleetWatch, subscription: Subscription, installs: bool, ghost ticks: seq<TickSpan>,
                     ghost rests: seq<Rest>)
    returns (ghost rests': seq<Rest>)
    requires w.Valid() && Current(w.trace, w.run, ticks, rests, Rest(w.Snap(), w.clock), w.registry.subscriptions)
    requires w.registry.observerInstalled <==> w.registry.subscriptions != []
    modifies w, w.slots
    ensures w.Valid() && (w.registry.observerInstalled <==> w.registry.subscriptions != [])
    ensures Current(w.trace, w.run, ticks, rests', Rest(w.Snap(), w.clock), w.registry.subscriptions)
  {
    ghost var was, run, registry := Rest(w.Snap(), w.clock), w.run, w.registry;
    var accepted := w.Subscribe(subscription, installs);
    ghost var now := Rest(w.Snap(), w.clock);
    if accepted && !registry.observerInstalled {
      CurrentInstalled(run, ticks, rests, was, w.trace, w.run, now, w.registry.subscriptions);
      rests' := rests[|ticks| := now];
    } else {
      CurrentSubscribed(w.trace, run, w.run, ticks, rests, now, registry.subscriptions, w.registry.subscriptions);
      rests' := rests;
    }
  }

  lemma EveryTraceHolds(t: seq<Event>, run: seq<Monitor>)
    requires Accepts(t, run) && run[|t|].due.None?
    ensures Promises(t)
  {
    forall i | 0 <= i < |t| && t[i].Transition?
      ensures exists b :: LiveFrom(t, b, i)
                          && LastPublished(t, b, i, t[i].slot, Some(Entry(t[i].fleet, t[i].before)))
                          && t[i].before != t[i].after && t[i - 1] == Seen(t[i].slot, Entry(t[i].fleet, t[i].after))
    {
      var b := TransitionContinuesChain(t, run, i);
    }
    forall i, k | 0 <= i < k < |t| && t[i].Baseline? && t[k].Baseline?
      ensures exists r :: i < r < k && t[r].Reset?
    {
      BaselineOncePerReset(t, run, i, k);
    }
    forall i | 0 <= i < |t| && t[i].Baseline? ensures exists start :: StableSince(t, start, i) {
      var start := BaselineIsStable(t, run, i);
    }
    forall i, b0 | 0 <= b0 < i < |t| && t[i].Seen? && t[b0].Baseline? && NoReset(t, b0, i)
      ensures exists b, known ::
                LiveFrom(t, b, i) && LastPublished(t, b, i, t[i].slot, known) && PublishedNext(t, i, known)
    {
      var b, known := SeenIsPublished(t, run, i);
    }
    forall i | 0 <= i < |t| && (t[i].Baseline? || t[i].Transition?) ensures exists k :: ReportedAt(t, k, i) {
      var k := EventsReportService(t, run, i);
    }
    forall x, i | 0 <= x < i < |t| && t[x].Exhausted? && t[i] == Armed(t[x].slot, t[x].entry)
      ensures exists k :: x < k < i && (t[k].Reset? || PublishesSlot(t[k], t[x].slot))
    {
      ExhaustedStaysOff(t, run, x, i);
    }
  }
}
