// How the grants of the request table go with the native calls made so far: each is backed by a
// standing engagement, and each standing engagement has its grant unless the table lost it.
module RecoveryTrail {
  import opened Options
  import opened QueueLedger
  import opened RecoveryRequests
  import opened NativeCalls

  function GrantFor(serial: nat, e: Call): Grant
    requires Engages(e)
  {
    Grant(serial, e.queue.id, e.queue.items.value[0].value, e.queue.attempt, e.at)
  }

  // issued maps the serials given out to the positions at which the engagements began.
  ghost predicate Issued(tl: seq<Moment>, serial: nat, issued: map<nat, nat>) {
    && (forall s :: s in issued ==> s <= serial && issued[s] < |tl|)
    && (forall s, t :: s in issued && t in issued && issued[s] == issued[t] ==> s == t)
  }

  ghost predicate Backed(tl: seq<Moment>, answers: seq<bool>, fleet: int, g: Grant, issued: map<nat, nat>)
    requires |answers| == |tl|
  {
    && g.serial in issued
    && var j := issued[g.serial];
       && Standing(tl, answers, j) && fleet == tl[j].call.queue.fleet && g == GrantFor(g.serial, tl[j].call)
  }

  ghost predicate Kept(fleet: int, j: nat, grants: map<int, Grant>, issued: map<nat, nat>) {
    fleet in grants && grants[fleet].serial in issued && issued[grants[fleet].serial] == j
  }

  ghost predicate Agree(tl: seq<Moment>, answers: seq<bool>, grants: map<int, Grant>, serial: nat, issued: map<nat, nat>) {
    && |answers| == |tl| && Issued(tl, serial, issued)
    && (forall f :: f in grants ==> Backed(tl, answers, f, grants[f], issued))
    && (forall j: nat :: Standing(tl, answers, j) ==> Kept(tl[j].call.queue.fleet, j, grants, issued) || Lost(tl, answers, j))
  }

  predicate EngagesNow(tl: seq<Moment>, m: Moment) {
    m.Begin? && Engages(m.call) && Enabled(tl)
  }

  lemma Prefix(tl: seq<Moment>, answers: seq<bool>, m: Moment, a: bool, k: nat)
    requires |answers| == |tl| && k <= |tl|
    ensures (tl + [m])[..k] == tl[..k] && (answers + [a])[..k] == answers[..k]
  {
  }

  lemma EngagedMore(tl: seq<Moment>, m: Moment, j: nat)
    ensures EngagedAt(tl + [m], j) <==> EngagedAt(tl, j) || (j == |tl| && EngagesNow(tl, m))
  {
    if j <= |tl| {
      assert (tl + [m])[..j] == tl[..j];
      assert tl[..|tl|] == tl;
    }
  }

  // One more moment.
  lemma StandingMore(tl: seq<Moment>, answers: seq<bool>, m: Moment, a: bool, j: nat)
    requires |answers| == |tl|
    ensures Standing(tl + [m], answers + [a], j) <==>
              || (Standing(tl, answers, j) && !Over(tl, m, a, j, tl[j].call))
              || (j == |tl| && EngagesNow(tl, m))
  {
    var tl', answers' := tl + [m], answers + [a];
    EngagedMore(tl, m, j);
    if EngagedAt(tl, j) {
      forall k | j < k < |tl'|
        ensures tl'[..k] == tl[..k] && answers'[..k] == answers[..k] && tl'[k] == (if k < |tl| then tl[k] else m)
                && answers'[k] == if k < |tl| then answers[k] else a
      {
        Prefix(tl, answers, m, a, k);
      }
      assert tl'[..|tl|] == tl;
      if Standing(tl', answers', j) {
        assert !Over(tl'[..|tl|], tl'[|tl|], answers'[|tl|], j, tl'[j].call);
        forall k | j < k < |tl| ensures !Over(tl[..k], tl[k], answers[k], j, tl[j].call) {
          assert !Over(tl'[..k], tl'[k], answers'[k], j, tl'[j].call);
        }
      }
    }
  }

  lemma LostMore(tl: seq<Moment>, answers: seq<bool>, m: Moment, a: bool, j: nat)
    requires |answers| == |tl| && EngagedAt(tl, j) && Lost(tl, answers, j)
    ensures EngagedAt(tl + [m], j) && Lost(tl + [m], answers + [a], j)
  {
    EngagedMore(tl, m, j);
    var k :| LostAt(tl, answers, j, k);
    Prefix(tl, answers, m, a, k);
    assert LostAt(tl + [m], answers + [a], j, k);
  }

  // Whether the table may lose the engagement at j with this moment.
  ghost predicate LostNow(tl: seq<Moment>, answers: seq<bool>, m: Moment, j: nat)
    requires |answers| == |tl| && EngagedAt(tl, j)
  {
    || (Reading(m).Some? && Reading(m).value - tl[j].call.at >= 30)
    || exists eight :: Displaced(tl, answers, j, m, eight)
  }

  lemma LostWith(tl: seq<Moment>, answers: seq<bool>, m: Moment, a: bool, j: nat)
    requires |answers| == |tl| && EngagedAt(tl, j) && LostNow(tl, answers, m, j)
    ensures EngagedAt(tl + [m], j) && Lost(tl + [m], answers + [a], j)
  {
    EngagedMore(tl, m, j);
    Prefix(tl, answers, m, a, |tl|);
    assert tl[..|tl|] == tl && answers[..|tl|] == answers;
    assert LostAt(tl + [m], answers + [a], j, |tl|);
  }

  // What a moment may do to the grants: keep one whose engagement is not over, drop one that is
  // over or lost, add the new one.
  ghost predicate Keeps(tl: seq<Moment>, answers: seq<bool>, m: Moment, a: bool, f: int, g: Grant, issued: map<nat, nat>)
    requires |answers| == |tl| && Backed(tl, answers, f, g, issued)
  {
    !Over(tl, m, a, issued[g.serial], tl[issued[g.serial]].call)
  }

  ghost predicate Drops(tl: seq<Moment>, answers: seq<bool>, m: Moment, a: bool, f: int, g: Grant, issued: map<nat, nat>)
    requires |answers| == |tl| && Backed(tl, answers, f, g, issued)
  {
    !Keeps(tl, answers, m, a, f, g, issued) || LostNow(tl, answers, m, issued[g.serial])
  }

  ghost predicate Added(tl: seq<Moment>, m: Moment, f: int, g: Grant, issued': map<nat, nat>) {
    && EngagesNow(tl, m) && f == m.call.queue.fleet && g == GrantFor(g.serial, m.call)
    && g.serial in issued' && issued'[g.serial] == |tl|
  }

  ghost predicate Moves(tl: seq<Moment>, answers: seq<bool>, grants: map<int, Grant>, serial: nat, issued: map<nat, nat>,
                        m: Moment, a: bool, grants': map<int, Grant>, serial': nat, issued': map<nat, nat>)
    requires Agree(tl, answers, grants, serial, issued)
  {
    && (forall f :: f in grants' ==>
          || (f in grants && grants'[f] == grants[f] && Keeps(tl, answers, m, a, f, grants[f], issued))
          || Added(tl, m, f, grants'[f], issued'))
    && (forall f :: f in grants && !(f in grants' && grants'[f] == grants[f]) ==>
          Drops(tl, answers, m, a, f, grants[f], issued))
    && (EngagesNow(tl, m) ==>
          m.call.queue.fleet in grants' && Added(tl, m, m.call.queue.fleet, grants'[m.call.queue.fleet], issued'))
    && (forall s :: s in issued ==> s in issued' && issued'[s] == issued[s])
    && Issued(tl + [m], serial', issued')
  }

  lemma Advance(tl: seq<Moment>, answers: seq<bool>, grants: map<int, Grant>, serial: nat, issued: map<nat, nat>,
                m: Moment, a: bool, grants': map<int, Grant>, serial': nat, issued': map<nat, nat>)
    requires Agree(tl, answers, grants, serial, issued)
    requires Moves(tl, answers, grants, serial, issued, m, a, grants', serial', issued')
    ensures Agree(tl + [m], answers + [a], grants', serial', issued')
  {
    var tl', answers' := tl + [m], answers + [a];
    forall f | f in grants' ensures Backed(tl', answers', f, grants'[f], issued') {
      if Added(tl, m, f, grants'[f], issued') {
        StandingMore(tl, answers, m, a, |tl|);
      } else {
        StandingMore(tl, answers, m, a, issued[grants[f].serial]);
      }
    }
    forall j: nat | Standing(tl', answers', j)
      ensures Kept(tl'[j].call.queue.fleet, j, grants', issued') || Lost(tl', answers', j)
    {
      StandingMore(tl, answers, m, a, j);
      if j < |tl| {
        StillKept(tl, answers, grants, serial, issued, m, a, grants', serial', issued', j);
      }
    }
  }

  lemma StillKept(tl: seq<Moment>, answers: seq<bool>, grants: map<int, Grant>, serial: nat, issued: map<nat, nat>,
                  m: Moment, a: bool, grants': map<int, Grant>, serial': nat, issued': map<nat, nat>, j: nat)
    requires Agree(tl, answers, grants, serial, issued)
    requires Moves(tl, answers, grants, serial, issued, m, a, grants', serial', issued')
    requires Standing(tl, answers, j) && !Over(tl, m, a, j, tl[j].call)
    ensures EngagedAt(tl + [m], j)
    ensures Kept(tl[j].call.queue.fleet, j, grants', issued') || Lost(tl + [m], answers + [a], j)
  {
    EngagedMore(tl, m, j);
    var f := tl[j].call.queue.fleet;
    if Lost(tl, answers, j) {
      LostMore(tl, answers, m, a, j);
    } else if !(f in grants' && grants'[f] == grants[f]) {
      LostWith(tl, answers, m, a, j);
    }
  }

  // ---- The operations of the table ----

  // A moment that leaves the table alone.
  lemma Unmoved(tl: seq<Moment>, answers: seq<bool>, grants: map<int, Grant>, serial: nat, issued: map<nat, nat>,
                m: Moment, a: bool)
    requires Agree(tl, answers, grants, serial, issued) && !EngagesNow(tl, m)
    requires forall f :: f in grants ==> Keeps(tl, answers, m, a, f, grants[f], issued)
    ensures Agree(tl + [m], answers + [a], grants, serial, issued)
  {
    Advance(tl, answers, grants, serial, issued, m, a, grants, serial, issued);
  }

  // Moments at which nothing is decided.
  predicate Quiet(tl: seq<Moment>, m: Moment) {
    match m
    case Begin(call) => call.Configure? || ((call.Retry? || call.Course?) && Enabled(tl))
    case End(call) => !call.Retry? && !(call.Engage? && call.outcome != 0)
  }

  lemma QuietUnmoved(tl: seq<Moment>, answers: seq<bool>, grants: map<int, Grant>, serial: nat, issued: map<nat, nat>, m: Moment)
    requires Agree(tl, answers, grants, serial, issued) && Quiet(tl, m)
    ensures Agree(tl + [m], answers + [false], grants, serial, issued)
  {
    Unmoved(tl, answers, grants, serial, issued, m, false);
  }

  lemma ClearedAll(tl: seq<Moment>, answers: seq<bool>, grants: map<int, Grant>, serial: nat, issued: map<nat, nat>, m: Moment)
    requires Agree(tl, answers, grants, serial, issued) && Clears(tl, m)
    ensures Agree(tl + [m], answers + [false], map[], serial, issued)
  {
    Advance(tl, answers, grants, serial, issued, m, false, map[], serial, issued);
  }

  lemma CollectedQueue(tl: seq<Moment>, answers: seq<bool>, grants: map<int, Grant>, serial: nat, issued: map<nat, nat>,
                       queue: Identity)
    requires Agree(tl, answers, grants, serial, issued)
    ensures Agree(tl + [Begin(Collect(queue))], answers + [false],
                  Step(Ledger(grants, serial), Collected(queue)).grants, serial, issued)
  {
    Advance(tl, answers, grants, serial, issued, Begin(Collect(queue)), false,
            Step(Ledger(grants, serial), Collected(queue)).grants, serial, issued);
  }

  // The engagement that began at j under a serial ends without a dispatch.
  lemma CancelledOne(tl: seq<Moment>, answers: seq<bool>, grants: map<int, Grant>, serial: nat, issued: map<nat, nat>,
                     call: Call, cancelled: nat)
    requires Agree(tl, answers, grants, serial, issued) && call.Engage? && call.outcome != 0
    requires cancelled in issued && Innermost(tl) == Some(issued[cancelled])
    ensures Agree(tl + [End(call)], answers + [false], Without(grants, cancelled), serial, issued)
  {
    Advance(tl, answers, grants, serial, issued, End(call), false, Without(grants, cancelled), serial, issued);
  }

  // An engagement that was not remembered has nothing to cancel.
  lemma NothingToCancel(tl: seq<Moment>, answers: seq<bool>, grants: map<int, Grant>, serial: nat, issued: map<nat, nat>,
                        call: Call, j: nat)
    requires Agree(tl, answers, grants, serial, issued) && call.Engage?
    requires Innermost(tl) == Some(j) && !EngagedAt(tl, j)
    ensures Agree(tl + [End(call)], answers + [false], grants, serial, issued)
  {
    Unmoved(tl, answers, grants, serial, issued, End(call), false);
  }

  // What an inspection must have seen of the queue that engages.
  predicate Sees(state: QueueState, queue: Queue) {
    && state.fleet == FleetOf(queue)
    && (Usable(state) ==> && queue.Queue? && queue.items.Some? && queue.items.value != []
                          && queue.items.value[0] == Some(state.front) && state.attempt == queue.attempt)
  }

  // An engagement with its state, remembered under the next serial.
  ghost predicate Remembers(tl: seq<Moment>, grants: map<int, Grant>, serial: nat, call: Call, state: QueueState,
                            grants': map<int, Grant>) {
    && call.Engage? && !call.throws && Enabled(tl) && Sees(state, call.queue) && (Usable(state) <==> Engages(call))
    && Remembering(grants, grants', serial + 1, call.queue.Pointer(), state, call.at)
  }

  lemma RememberedOne(tl: seq<Moment>, answers: seq<bool>, grants: map<int, Grant>, serial: nat, issued: map<nat, nat>,
                      call: Call, state: QueueState, grants': map<int, Grant>)
    requires Agree(tl, answers, grants, serial, issued) && Remembers(tl, grants, serial, call, state, grants')
    ensures Agree(tl + [Begin(call)], answers + [false], grants', serial + 1, issued[serial + 1 := |tl|])
  {
    var m, issued' := Begin(call), issued[serial + 1 := |tl|];
    forall f | f in grants && !(f in grants' && grants'[f] == grants[f])
      ensures Drops(tl, answers, m, false, f, grants[f], issued)
    {
      Dropped(tl, answers, grants, serial, issued, call, state, grants', f);
    }
    forall f | f in grants'
      ensures || (f in grants && grants'[f] == grants[f] && Keeps(tl, answers, m, false, f, grants[f], issued))
              || Added(tl, m, f, grants'[f], issued')
    {
      KeptOrAdded(tl, answers, grants, serial, issued, call, state, grants', f);
    }
    Advance(tl, answers, grants, serial, issued, m, false, grants', serial + 1, issued');
  }

  lemma KeptOrAdded(tl: seq<Moment>, answers: seq<bool>, grants: map<int, Grant>, serial: nat, issued: map<nat, nat>,
                    call: Call, state: QueueState, grants': map<int, Grant>, f: int)
    requires Agree(tl, answers, grants, serial, issued) && Remembers(tl, grants, serial, call, state, grants') && f in grants'
    ensures || (f in grants && grants'[f] == grants[f] && Keeps(tl, answers, Begin(call), false, f, grants[f], issued))
            || Added(tl, Begin(call), f, grants'[f], issued[serial + 1 := |tl|])
    ensures Engages(call) && f == call.queue.fleet ==> Added(tl, Begin(call), f, grants'[f], issued[serial + 1 := |tl|])
  {
    if f != state.fleet {
      assert Backed(tl, answers, f, grants[f], issued);
    }
  }

  lemma Dropped(tl: seq<Moment>, answers: seq<bool>, grants: map<int, Grant>, serial: nat, issued: map<nat, nat>,
                call: Call, state: QueueState, grants': map<int, Grant>, f: int)
    requires Agree(tl, answers, grants, serial, issued) && Remembers(tl, grants, serial, call, state, grants')
    requires f in grants && !(f in grants' && grants'[f] == grants[f])
    ensures Drops(tl, answers, Begin(call), false, f, grants[f], issued)
  {
    assert Backed(tl, answers, f, grants[f], issued);
    if f != state.fleet && Fresh(grants[f], call.at) {
      assert Pushed(f, grants, grants', state.fleet, call.at);
      DisplacedNow(tl, answers, grants, serial, issued, call, f);
    }
  }

  lemma DisplacedNow(tl: seq<Moment>, answers: seq<bool>, grants: map<int, Grant>, serial: nat, issued: map<nat, nat>,
                     call: Call, f: int)
    requires Agree(tl, answers, grants, serial, issued) && call.Engage? && f in grants
    requires FullOfYoung(grants, f, FleetOf(call.queue), call.at)
    ensures Backed(tl, answers, f, grants[f], issued) && LostNow(tl, answers, Begin(call), issued[grants[f].serial])
  {
    var j, eight := issued[grants[f].serial], Positions(grants, issued, grants.Keys);
    PositionsDiffer(tl, answers, grants, issued, grants.Keys);
    forall i | i in eight
      ensures Standing(tl, answers, i) && tl[j].call.at <= tl[i].call.at
              && call.at - tl[i].call.at < 30 && tl[i].call.queue.fleet != FleetOf(call.queue)
    {
      var g :| g in grants && issued[grants[g].serial] == i;
      assert Backed(tl, answers, g, grants[g], issued);
    }
    assert Displaced(tl, answers, j, Begin(call), eight);
  }

  function Positions(grants: map<int, Grant>, issued: map<nat, nat>, fleets: set<int>): set<nat>
    requires fleets <= grants.Keys && forall f :: f in grants ==> grants[f].serial in issued
  {
    set f | f in fleets :: issued[grants[f].serial]
  }

  // Grants of different fleets are backed at different positions.
  lemma {:induction false} PositionsDiffer(tl: seq<Moment>, answers: seq<bool>, grants: map<int, Grant>,
                                           issued: map<nat, nat>, fleets: set<int>)
    requires |answers| == |tl| && fleets <= grants.Keys
    requires forall f :: f in grants ==> Backed(tl, answers, f, grants[f], issued)
    ensures forall f :: f in grants ==> grants[f].serial in issued
    ensures |Positions(grants, issued, fleets)| == |fleets|
  {
    if fleets != {} {
      var f :| f in fleets;
      var rest, j := fleets - {f}, issued[grants[f].serial];
      PositionsDiffer(tl, answers, grants, issued, rest);
      assert Backed(tl, answers, f, grants[f], issued);
      var there := Positions(grants, issued, rest);
      forall g | g in rest ensures issued[grants[g].serial] != j {
        assert Backed(tl, answers, g, grants[g], issued);
      }
      assert Positions(grants, issued, fleets) == there + {j};
    }
  }

  // A retry that may be forced, with what Consume answers.
  lemma ConsumeAnswers(tl: seq<Moment>, answers: seq<bool>, grants: map<int, Grant>, serial: nat, issued: map<nat, nat>,
                       call: Call, state: QueueState)
    requires Agree(tl, answers, grants, serial, issued) && call.Retry? && call.queue.Queue?
    requires state.fleet == call.queue.fleet && state.attempt == call.queue.attempt
    ensures Matches(grants, call.queue.id, state, call.target, call.at) ==>
              exists j: nat :: Authorizes(tl, answers, j, call)
    ensures Pending(tl, answers, call) ==> Matches(grants, call.queue.id, state, call.target, call.at)
  {
    if Matches(grants, call.queue.id, state, call.target, call.at) {
      assert Authorizes(tl, answers, issued[grants[state.fleet].serial], call);
    }
  }

  // A retry ends without being forced: at most stale grants are gone.
  lemma NotForced(tl: seq<Moment>, answers: seq<bool>, grants: map<int, Grant>, serial: nat, issued: map<nat, nat>,
                  call: Call, a: bool, grants': map<int, Grant>)
    requires Agree(tl, answers, grants, serial, issued) && call.Retry? && !Forced(End(call), a)
    requires OnlyStaleLost(grants, grants', call.at)
    ensures Agree(tl + [End(call)], answers + [a], grants', serial, issued)
  {
    Advance(tl, answers, grants, serial, issued, End(call), a, grants', serial, issued);
  }

  // A forced retry spends the grant of its fleet.
  lemma SpentOne(tl: seq<Moment>, answers: seq<bool>, grants: map<int, Grant>, serial: nat, issued: map<nat, nat>, call: Call)
    requires Agree(tl, answers, grants, serial, issued) && call.Retry? && !call.native
    ensures Agree(tl + [End(call)], answers + [true], grants - {FleetOf(call.queue)}, serial, issued)
  {
    Advance(tl, answers, grants, serial, issued, End(call), true, grants - {FleetOf(call.queue)}, serial, issued);
  }

  // ---- Calls in progress ----

  lemma TimelineMore(calls: seq<Call>, i: nat)
    requires i < |calls|
    ensures Timeline(calls[..i + 1]) == Timeline(calls[..i]) + Around(calls[i])
  {
    assert calls[..i + 1][..i] == calls[..i];
  }

  lemma OpenMore(tl: seq<Moment>, m: Moment)
    ensures Open(tl + [m]) == if m.Begin? then Open(tl) + [|tl|] else if Open(tl) == [] then [] else Open(tl)[..|Open(tl)| - 1]
  {
    assert (tl + [m])[..|tl|] == tl;
  }

  lemma EnabledMore(tl: seq<Moment>, m: Moment)
    ensures Enabled(tl + [m]) == if m.Begin? && m.call.Configure? then m.call.enabled else Enabled(tl)
  {
    assert (tl + [m])[..|tl|] == tl;
  }

  lemma {:induction false} HandledMore(tl: seq<Moment>, tl': seq<Moment>, open: seq<nat>)
    requires tl <= tl' && forall k :: 0 <= k < |open| ==> open[k] < |tl|
    ensures Handled(tl', open) == Handled(tl, open)
  {
    if open != [] {
      HandledMore(tl, tl', open[..|open| - 1]);
    }
  }

  function HandledNow(tl: seq<Moment>): (m: Option<nat>)
    ensures m.Some? ==> m.value < |tl| && tl[m.value].call.Course?
  {
    Handled(tl, Open(tl))
  }

  // The innermost course response once a call has begun.
  lemma HandledBegin(tl: seq<Moment>, call: Call)
    ensures HandledNow(tl + [Begin(call)]) == if call.Course? then Some(|tl|) else HandledNow(tl)
  {
    var tl' := tl + [Begin(call)];
    OpenMore(tl, Begin(call));
    assert Open(tl')[..|Open(tl)|] == Open(tl);
    HandledMore(tl, tl', Open(tl));
  }

  // It is the same as before when all calls since have ended.
  lemma HandledAgain(tl: seq<Moment>, tl': seq<Moment>)
    requires tl <= tl' && Open(tl') == Open(tl)
    ensures HandledNow(tl') == HandledNow(tl) && Innermost(tl') == Innermost(tl)
  {
    HandledMore(tl, tl', Open(tl));
  }

  // ---- Answers ----

  lemma AnsweredMore(tl: seq<Moment>, answers: seq<bool>, m: Moment, a: bool)
    requires Answered(tl, answers)
    requires m.End? && m.call.Retry? ==> AnsweredRight(tl, answers, m.call, a)
    ensures Answered(tl + [m], answers + [a])
  {
    var tl', answers' := tl + [m], answers + [a];
    forall i | 0 <= i < |tl'| && tl'[i].End? && tl'[i].call.Retry?
      ensures AnsweredRight(tl'[..i], answers'[..i], tl'[i].call, answers'[i])
    {
      Prefix(tl, answers, m, a, i);
      assert tl[..|tl|] == tl && answers[..|answers|] == answers;
    }
  }
}
