// What the queue-recovery table authorizes, stated over the log of what happened to it.
//
// A Ledger reads the log from left to right. A remembered engagement grants one later
// recovery to its fleet; the grant is spent, cancelled, superseded or lost by the events
// named here and by nothing else. The class Requests keeps its eight records equal to the
// grants; the theorems at the end of this module speak of positions in the log only.
module QueueLedger {
  const LIFETIME_S := 30
  const CAPACITY := 8

  // Identity of a native queue; 0 is the null pointer.
  type Object = nat

  datatype QueueState = QueueState(
    valid: bool, fleet: int, front: int, attempt: real, count: int, engaging: bool, containsTarget: bool)

  predicate Usable(state: QueueState) {
    state.valid && state.count > 0 && state.front != 0
  }

  datatype Event =
    | Remembered(serial: nat, queue: Object, state: QueueState, at: int)
    | Cancelled(serial: nat)
    | Consumed(serial: nat, queue: Object, fleet: int, target: int, attempt: real, at: int)
    | Cleared
    | Collected(queue: Object)           // the native queue was garbage collected
    | Expired(serial: nat, at: int)      // released as older than its lifetime
    | Evicted(serial: nat, at: int)      // released to make room

  datatype Grant = Grant(serial: nat, queue: Object, target: int, attempt: real, started: int)

  datatype Ledger = Ledger(grants: map<int, Grant>, serial: nat)

  const OPENING := Ledger(map[], 0)

  predicate Fresh(g: Grant, at: int) {
    at - g.started < LIFETIME_S
  }

  ghost predicate Oldest(grants: map<int, Grant>, fleet: int) {
    fleet in grants && forall f :: f in grants ==> grants[fleet].started <= grants[f].started
  }

  ghost predicate Allowed(l: Ledger, e: Event) {
    match e
    case Remembered(serial, queue, state, _) =>
      serial == l.serial + 1 && (Usable(state) ==> queue != 0 && state.fleet != 0)
    case Consumed(serial, queue, fleet, target, attempt, at) =>
      && fleet in l.grants && at - l.grants[fleet].started < LIFETIME_S
      && l.grants[fleet] == Grant(serial, queue, target, attempt, l.grants[fleet].started)
    case Expired(serial, at) =>
      exists f :: f in l.grants && l.grants[f].serial == serial && !Fresh(l.grants[f], at)
    case Evicted(serial, at) =>
      && |l.grants| == CAPACITY && (forall f :: f in l.grants ==> Fresh(l.grants[f], at))
      && exists f :: Oldest(l.grants, f) && l.grants[f].serial == serial
    case _ => true
  }

  function Without(grants: map<int, Grant>, serial: nat): map<int, Grant> {
    map f | f in grants && grants[f].serial != serial :: grants[f]
  }

  function Step(l: Ledger, e: Event): Ledger {
    match e
    case Remembered(serial, queue, state, at) =>
      var rest := l.grants - {state.fleet};
      Ledger(if Usable(state) then rest[state.fleet := Grant(serial, queue, state.front, state.attempt, at)] else rest,
             serial)
    case Cancelled(serial) => l.(grants := Without(l.grants, serial))
    case Consumed(serial, _, _, _, _, _) => l.(grants := Without(l.grants, serial))
    case Cleared => l.(grants := map[])
    case Collected(queue) => l.(grants := map f | f in l.grants && l.grants[f].queue != queue :: l.grants[f])
    case Expired(serial, _) => l.(grants := Without(l.grants, serial))
    case Evicted(serial, _) => l.(grants := Without(l.grants, serial))
  }

  ghost predicate Accepts(log: seq<Event>, run: seq<Ledger>) {
    && |run| == |log| + 1 && run[0] == OPENING
    && forall i :: 0 <= i < |log| ==> Allowed(run[i], log[i]) && run[i + 1] == Step(run[i], log[i])
  }

  // Whether e takes the grant remembered by r away.
  predicate Ends(e: Event, r: Event)
    requires r.Remembered?
  {
    match e
    case Remembered(_, _, state, _) => state.fleet == r.state.fleet
    case Cleared => true
    case Collected(queue) => queue == r.queue
    case Cancelled(serial) => serial == r.serial
    case Consumed(serial, _, _, _, _, _) => serial == r.serial
    case Expired(serial, _) => serial == r.serial
    case Evicted(serial, _) => serial == r.serial
  }

  // The engagement remembered at i still stands at position n.
  ghost predicate Stands(log: seq<Event>, i: int, n: int)
    requires n <= |log|
  {
    0 <= i < n && log[i].Remembered? && Usable(log[i].state) && forall k :: i < k < n ==> !Ends(log[k], log[i])
  }

  function GrantOf(r: Event): Grant
    requires r.Remembered?
  {
    Grant(r.serial, r.queue, r.state.front, r.state.attempt, r.at)
  }

  // Standing grants carry distinct serials that were already given out.
  ghost predicate SerialsInOrder(l: Ledger) {
    && (forall f :: f in l.grants ==> 1 <= l.grants[f].serial <= l.serial)
    && (forall f, g :: f in l.grants && g in l.grants && f != g ==> l.grants[f].serial != l.grants[g].serial)
  }

  lemma StepSerials(l: Ledger, e: Event)
    requires SerialsInOrder(l) && Allowed(l, e)
    ensures SerialsInOrder(Step(l, e)) && l.serial <= Step(l, e).serial
    ensures e.Remembered? ==> l.serial < e.serial == Step(l, e).serial
  {
    var left := Step(l, e).grants;
    forall f | f in left ensures (f in l.grants && left[f] == l.grants[f]) || (e.Remembered? && f == e.state.fleet) {
    }
  }

  lemma {:induction false} SerialsBounded(log: seq<Event>, run: seq<Ledger>, n: nat)
    requires Accepts(log, run) && n <= |log|
    ensures SerialsInOrder(run[n])
    ensures forall i :: 0 <= i < n && log[i].Remembered? ==> 1 <= log[i].serial <= run[n].serial
  {
    if n > 0 {
      SerialsBounded(log, run, n - 1);
      StepSerials(run[n - 1], log[n - 1]);
    }
  }

  lemma SerialsIncrease(log: seq<Event>, run: seq<Ledger>, i: nat, k: nat)
    requires Accepts(log, run) && i < k < |log| && log[i].Remembered? && log[k].Remembered?
    ensures log[i].serial < log[k].serial
  {
    SerialsBounded(log, run, k);
  }

  lemma GrantStep(l: Ledger, e: Event, r: Event)
    requires r.Remembered? && r.state.fleet in l.grants && l.grants[r.state.fleet] == GrantOf(r)
    ensures !Ends(e, r) ==> r.state.fleet in Step(l, e).grants && Step(l, e).grants[r.state.fleet] == GrantOf(r)
    ensures Ends(e, r) && !e.Remembered? ==> r.state.fleet !in Step(l, e).grants
  {
  }

  lemma GrantStepBack(l: Ledger, e: Event, fleet: int)
    requires fleet in Step(l, e).grants && !(e.Remembered? && e.state.fleet == fleet)
    ensures fleet in l.grants
  {
  }

  // A fleet holds a grant exactly when some engagement remembered for it still stands, and
  // the grant is what that engagement was remembered with.
  lemma {:induction false} GrantsAreStandingEngagements(log: seq<Event>, run: seq<Ledger>, n: nat, fleet: int)
    requires Accepts(log, run) && n <= |log|
    ensures fleet in run[n].grants <==> exists i :: Stands(log, i, n) && log[i].state.fleet == fleet
    ensures forall i :: Stands(log, i, n) && log[i].state.fleet == fleet ==>
              fleet in run[n].grants && run[n].grants[fleet] == GrantOf(log[i])
  {
    if n > 0 {
      GrantsAreStandingEngagements(log, run, n - 1, fleet);
      var e := log[n - 1];
      forall i | Stands(log, i, n) && log[i].state.fleet == fleet
        ensures fleet in run[n].grants && run[n].grants[fleet] == GrantOf(log[i])
      {
        if i < n - 1 {
          assert Stands(log, i, n - 1);
          GrantStep(run[n - 1], e, log[i]);
        }
      }
      if fleet in run[n].grants {
        if e.Remembered? && e.state.fleet == fleet {
          assert Stands(log, n - 1, n);
        } else {
          GrantStepBack(run[n - 1], e, fleet);
          var i :| Stands(log, i, n - 1) && log[i].state.fleet == fleet;
          GrantStep(run[n - 1], e, log[i]);
          assert Stands(log, i, n);
        }
      }
    }
  }

  // Every recovery that was let through was authorized by one earlier engagement of the same
  // queue, fleet, target and attempt, less than thirty seconds old, which nothing since had
  // superseded, cancelled, cleared, collected or spent.
  lemma ConsumeIsAuthorized(log: seq<Event>, run: seq<Ledger>, n: nat) returns (i: int)
    requires Accepts(log, run) && n < |log| && log[n].Consumed?
    ensures Stands(log, i, n)
    ensures log[i].serial == log[n].serial && log[i].queue == log[n].queue
    ensures log[i].state.fleet == log[n].fleet && log[i].state.front == log[n].target
    ensures log[i].state.attempt == log[n].attempt && log[n].at - log[i].at < LIFETIME_S
  {
    GrantsAreStandingEngagements(log, run, n, log[n].fleet);
    i :| Stands(log, i, n) && log[i].state.fleet == log[n].fleet;
  }

  // No engagement authorizes two recoveries.
  lemma NoGrantConsumedTwice(log: seq<Event>, run: seq<Ledger>, n: nat, k: nat)
    requires Accepts(log, run) && n < k < |log| && log[n].Consumed? && log[k].Consumed?
    ensures log[n].serial != log[k].serial
  {
    var i := ConsumeIsAuthorized(log, run, n);
    var j := ConsumeIsAuthorized(log, run, k);
    if log[n].serial == log[k].serial {
      if i < j {
        SerialsIncrease(log, run, i, j);
      }
    }
  }

  // Cancelling an outer engagement leaves one remembered after it, from a nested call, alone.
  lemma CancelSparesNested(log: seq<Event>, run: seq<Ledger>, outer: nat, nested: nat, n: nat)
    requires Accepts(log, run) && outer < nested < n < |log|
    requires log[outer].Remembered? && log[nested].Remembered? && log[n] == Cancelled(log[outer].serial)
    requires Stands(log, nested, n)
    ensures Stands(log, nested, n + 1)
    ensures log[nested].state.fleet in run[n + 1].grants
    ensures run[n + 1].grants[log[nested].state.fleet] == GrantOf(log[nested])
  {
    SerialsIncrease(log, run, outer, nested);
    assert Stands(log, nested, n + 1);
    GrantsAreStandingEngagements(log, run, n + 1, log[nested].state.fleet);
  }

  // A standing engagement that is not yet thirty seconds old loses its grant to room for
  // another only when eight grants stand, all of them that young, and it is the oldest.
  lemma EvictionOnlyWhenFull(log: seq<Event>, run: seq<Ledger>, i: nat, n: nat)
    requires Accepts(log, run) && i < n < |log| && Stands(log, i, n)
    requires log[n].Evicted? && log[n].serial == log[i].serial
    ensures |run[n].grants| == CAPACITY && Oldest(run[n].grants, log[i].state.fleet)
    ensures forall f :: f in run[n].grants ==> Fresh(run[n].grants[f], log[n].at)
  {
    GrantsAreStandingEngagements(log, run, n, log[i].state.fleet);
    SerialsBounded(log, run, n);
  }

  function Spent(log: seq<Event>): nat {
    if log == [] then 0 else Spent(log[..|log| - 1]) + if log[|log| - 1].Consumed? then 1 else 0
  }

  function Engagements(log: seq<Event>): nat {
    if log == [] then 0 else
      Engagements(log[..|log| - 1])
      + if log[|log| - 1].Remembered? && Usable(log[|log| - 1].state) then 1 else 0
  }

  lemma StepCounts(l: Ledger, e: Event)
    requires Allowed(l, e)
    ensures |Step(l, e).grants| + (if e.Consumed? then 1 else 0)
            <= |l.grants| + (if e.Remembered? && Usable(e.state) then 1 else 0)
  {
    var left := Step(l, e).grants;
    if e.Remembered? {
      var rest := l.grants - {e.state.fleet};
      assert rest.Keys <= l.grants.Keys;
      SubsetCount(rest.Keys, l.grants.Keys);
      assert left == rest || left.Keys == rest.Keys + {e.state.fleet};
    } else if e.Consumed? {
      assert left.Keys <= l.grants.Keys - {e.fleet};
      SubsetCount(left.Keys, l.grants.Keys - {e.fleet});
    } else {
      assert left.Keys <= l.grants.Keys;
      SubsetCount(left.Keys, l.grants.Keys);
    }
  }

  lemma SubsetCount(a: set<int>, b: set<int>)
    requires a <= b
    ensures |a| <= |b|
  {
    assert b == a + (b - a);
  }

  // At no time have more recoveries been let through than usable engagements remembered,
  // and what is left over bounds the grants that still stand.
  lemma {:induction false} NoMoreRecoveriesThanEngagements(log: seq<Event>, run: seq<Ledger>, n: nat)
    requires Accepts(log, run) && n <= |log|
    ensures |run[n].grants| + Spent(log[..n]) <= Engagements(log[..n])
  {
    if n > 0 {
      NoMoreRecoveriesThanEngagements(log, run, n - 1);
      StepCounts(run[n - 1], log[n - 1]);
      assert log[..n][..n - 1] == log[..n - 1];
    }
  }
}
