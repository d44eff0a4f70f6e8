// The hooks of action_queue.cc around the request table. A native function may call back into
// any hook, so what it does is given as a tree of nested calls.
module RecoveryHooks {
  import opened Options
  import opened QueueLedger
  import opened RecoveryRequests
  import opened NativeCalls
  import opened RecoveryTrail
  import opened HookSteps

  // An unreadable queue is ineligible, never taken for an empty one or one without the target.
  method Inspect(queue: Queue, target: int) returns (s: QueueState)
    ensures s.valid <==> Readable(queue, target)
    ensures s.fleet == FleetOf(queue)
    ensures s.valid ==>
      && s.fleet == queue.fleet && s.attempt == queue.attempt && s.engaging == queue.engaging
      && s.count == |queue.items.value| && (s.count > 0 ==> queue.items.value[0] == Some(s.front))
      && (s.containsTarget <==> target != 0 && Some(target) in queue.items.value)
  {
    s := NO_STATE;
    if queue.NotAQueue? {
      return;
    }
    s := s.(fleet := queue.fleet, attempt := queue.attempt, engaging := queue.engaging);
    if queue.items.None? {
      return;
    }
    var items := queue.items.value;
    s := s.(count := |items|);
    if |items| > MAX_QUEUE_LENGTH {
      return;
    }
    var inspectCount := if target != 0 then |items| else if |items| > 0 then 1 else 0;
    assert Inspected(queue, target) == items[..inspectCount];
    for i := 0 to inspectCount
      invariant s == QueueState(false, queue.fleet, s.front, queue.attempt, |items|, queue.engaging, s.containsTarget)
      invariant forall k :: 0 <= k < i ==> items[k].Some?
      invariant i > 0 ==> items[0] == Some(s.front)
      invariant s.containsTarget <==> target != 0 && Some(target) in items[..i]
    {
      if items[i].None? {
        assert items[..inspectCount][i].None?;
        return;
      }
      var id := items[i].value;
      if i == 0 {
        s := s.(front := id);
      }
      if target != 0 && id == target {
        s := s.(containsTarget := true);
      }
    }
    s := s.(valid := s.fleet != 0);
  }

  predicate CanAdvance(s: QueueState, failedFleet: int, failedTarget: int, outstandingAtEntry: bool, sameQueue: bool,
                       absentFromAllQueues: bool) {
    && s.valid && sameQueue && outstandingAtEntry && failedTarget != 0 && s.fleet == failedFleet
    && s.count > 0 && s.front != failedTarget && !s.engaging && !s.containsTarget && absentFromAllQueues
  }

  method AbsentFromAllQueues(queues: Option<seq<Option<Queue>>>, target: int) returns (absent: bool)
    requires target != 0
    ensures absent <==> Absent(queues, target)
  {
    if queues.None? {
      return false;
    }
    for i := 0 to |queues.value|
      invariant Absent(Some(queues.value[..i]), target)
    {
      if queues.value[i].None? {
        continue;
      }
      var s := Inspect(queues.value[i].value, target);
      if !s.valid || s.containsTarget {
        return false;
      }
    }
    return true;
  }

  predicate RemembersCall(e: Event, serial: nat, call: Call)
    requires call.Engage?
  {
    && e.Remembered? && e.serial == serial && e.at == call.at && e.queue == call.queue.Pointer()
    && (e.state.valid <==> Readable(call.queue, 0))
  }

  // The last entry of the log says that the retry was forced.
  predicate EndsWithRecovery(log: seq<Event>, call: Call)
    requires call.Retry? && call.queue.Queue?
  {
    && log != []
    && var last := log[|log| - 1];
       last.Consumed? && last == Consumed(last.serial, call.queue.id, call.queue.fleet, call.target, call.queue.attempt, call.at)
  }

  class Hooks {
    const requests: Requests
    var enabled: bool
    var currentCourse: Option<CourseContext>
    var answers: seq<bool>               // what the retries answered, at the moments at which they ended
    ghost var moments: seq<Moment>       // the native calls so far
    ghost var run: seq<HookState>

    ghost function Now(): HookState
      requires |run| > 0
      reads this
    {
      run[|run| - 1]
    }

    ghost predicate Valid()
      reads this, requests, requests.records, requests.handles
    {
      && requests.Valid() && HooksAccept(moments, answers, run)
      && Now() == HookState(requests.Current().grants, requests.serial, enabled, currentCourse, Now().open)
    }

    constructor ()
      ensures Valid() && fresh(requests) && fresh(requests.records) && fresh(requests.handles)
      ensures requests.log == [] && currentCourse == None && moments == []
    {
      requests := new Requests();
      enabled, currentCourse, answers, moments, run := true, None, [], [], [INITIAL];
    }

    // After the moments tl: the calls among them have ended, and so has what they set up.
    twostate predicate After(tl: seq<Moment>)
      requires old(|run|) > 0 && |run| > 0
      reads this, requests
    {
      && currentCourse == old(currentCourse) && old(requests.log) <= requests.log
      && moments == old(moments) + tl && old(answers) <= answers && Now().open == old(Now()).open
    }

    // One moment passes.
    method Note(ghost m: Moment, answer: bool, ghost open: seq<Frame>)
      requires requests.Valid() && HooksAccept(moments, answers, run)
      requires Passes(Now(), m, answer, HookState(requests.Current().grants, requests.serial, enabled, currentCourse, open))
      modifies this`answers, this`moments, this`run
      ensures Valid() && moments == old(moments) + [m] && answers == old(answers) + [answer] && Now().open == open
    {
      run := run + [HookState(requests.Current().grants, requests.serial, enabled, currentCourse, open)];
      moments, answers := moments + [m], answers + [answer];
    }

    method RunAll(calls: seq<Call>)
      requires Valid()
      modifies this, requests, requests.records, requests.handles
      ensures Valid() && After(Timeline(calls))
      ensures calls == [] ==> unchanged(this, requests, requests.records, requests.handles)
      decreases calls
    {
      assert calls[..0] == [];
      for i := 0 to |calls|
        invariant Valid() && After(Timeline(calls[..i]))
        invariant calls == [] ==> unchanged(this, requests, requests.records, requests.handles)
      {
        RunCall(calls[i]);
        TimelineMore(calls, i);
      }
      assert calls[..|calls|] == calls;
    }

    method RunCall(call: Call)
      requires Valid()
      modifies this, requests, requests.records, requests.handles
      ensures Valid() && After(Around(call))
      decreases call, 1
    {
      match call {
        case Engage(_, _, _, _, _) => RunEngage(call);
        case Retry(_, _, _, _, _, _, _) => var _ := RunRetry(call);
        case Course(_, _, _, _, _, _, _) => RunCourse(call);
        case ClearAll(_) => RunClearAll(call);
        case ResetTracking => RunResetTracking(call);
        case Collect(_) => RunCollect(call);
        case Configure(_) => RunConfigure(call);
      }
    }

    // A call begins that leaves the table alone, or has everything forgotten.
    method Enter(call: Call)
      requires Valid() && !call.Collect? && !call.Configure? && !call.Course? && (call.Engage? ==> Forgets(Now(), call))
      modifies this, requests, requests.records, requests.handles
      ensures Valid() && moments == old(moments) + [Begin(call)] && answers == old(answers) + [false]
      ensures enabled == old(enabled) && currentCourse == old(currentCourse)
      ensures Now().open == old(Now()).open + [Frame(0, currentCourse)]
      ensures if old(Forgets(Now(), call)) then
                requests.log == old(requests.log) + [Cleared] && requests.Current().grants == map[]
              else unchanged(requests, requests.records, requests.handles)
    {
      ghost var open := Now().open + [Frame(0, currentCourse)];
      if call.ClearAll? || call.ResetTracking? || call.Engage? || !enabled {
        requests.Clear();
      }
      Note(Begin(call), false, open);
    }

    // A call ends, its context with it.
    method Leave(ghost call: Call)
      requires Valid() && !call.Retry? && Now().open != [] && Now().open[|Now().open| - 1].course == currentCourse
      requires call.Engage? && call.outcome != 0 ==> Now().open[|Now().open| - 1].serial == 0
      modifies this`answers, this`moments, this`run
      ensures Valid() && moments == old(moments) + [End(call)] && answers == old(answers) + [false]
      ensures Now().open == old(Now().open[..|Now().open| - 1])
    {
      Note(End(call), false, Now().open[..|Now().open| - 1]);
    }

    method RunResetTracking(call: Call)
      requires Valid() && call.ResetTracking?
      modifies this, requests, requests.records, requests.handles
      ensures Valid() && After(Around(call)) && requests.Current().grants == map[]
    {
      Enter(call);
      Leave(call);
    }

    // The runtime collects a queue.
    method RunCollect(call: Call)
      requires Valid() && call.Collect?
      modifies this, requests, requests.records, requests.handles
      ensures Valid() && After(Around(call))
    {
      requests.CollectQueue(call.queueId);
      Note(Begin(call), false, Now().open + [Frame(0, currentCourse)]);
      Leave(call);
    }

    method RunConfigure(call: Call)
      requires Valid() && call.Configure?
      modifies this
      ensures Valid() && After(Around(call)) && enabled == call.enabled
    {
      enabled := call.enabled;
      Note(Begin(call), false, Now().open + [Frame(0, currentCourse)]);
      Leave(call);
    }

    // Everything is forgotten before the native call.
    method RunClearAll(call: Call)
      requires Valid() && call.ClearAll?
      modifies this, requests, requests.records, requests.handles
      ensures Valid() && After(Around(call))
      decreases call, 0
    {
      Enter(call);
      RunAll(call.inner);
      Leave(call);
    }

    // What an engagement leaves in the log around its native call: an attempt it remembered,
    // cancelled again at the very end if the native call did not dispatch, or a clearance.
    twostate predicate Engaged(call: Call)
      requires call.Engage?
      reads this, requests
    {
      var lo, hi := |old(requests.log)|, |requests.log|;
      if old(enabled) && !call.throws then
        && (exists i :: lo <= i < hi && RemembersCall(requests.log[i], old(requests.serial) + 1, call))
        && (call.outcome != 0 ==> requests.log[hi - 1] == Cancelled(old(requests.serial) + 1))
      else hi > lo && requests.log[lo] == Cleared
    }

    // What an engagement does before its native call: it remembers the attempt under a serial,
    // or clears everything.
    method Authorize(call: Call) returns (serial: nat)
      requires Valid() && call.Engage?
      modifies this, requests, requests.records, requests.handles
      ensures Valid() && old(requests.log) <= requests.log && |requests.log| > |old(requests.log)|
      ensures moments == old(moments) + [Begin(call)] && answers == old(answers) + [false]
      ensures enabled == old(enabled) && currentCourse == old(currentCourse)
      ensures Now().open == old(Now()).open + [Frame(serial, currentCourse)]
      ensures if enabled && !call.throws then
                serial == old(requests.serial) + 1
                && RemembersCall(requests.log[|requests.log| - 1], serial, call)
              else serial == 0 && requests.log == old(requests.log) + [Cleared]
    {
      if !enabled || call.throws {
        Enter(call);
        return 0;
      }
      var s := Inspect(call.queue, 0);
      EngagesUsably(call.queue, call, s);
      ghost var h := Now();
      serial := requests.Remember(call.queue.Pointer(), s, call.at);
      assert SeenAs(h.grants, h.serial, call, s, requests.Current().grants);
      Note(Begin(call), false, h.open + [Frame(serial, currentCourse)]);
    }

    // Remembers the attempt, and cancels it again if the native engagement did not dispatch.
    method RunEngage(call: Call)
      requires Valid() && call.Engage?
      modifies this, requests, requests.records, requests.handles
      ensures Valid() && After(Around(call)) && Engaged(call)
      decreases call, 0
    {
      ghost var i := |requests.log|;
      var serial := Authorize(call);
      i := if serial != 0 then |requests.log| - 1 else i;
      RunAll(call.inner);
      CancelUndispatched(call, serial);
      assert serial != 0 ==> RemembersCall(requests.log[i], serial, call);
    }

    method CancelUndispatched(call: Call, serial: nat)
      requires Valid() && call.Engage? && Now().open != []
      requires Now().open[|Now().open| - 1] == Frame(serial, currentCourse)
      modifies this`answers, this`moments, this`run, requests, requests.records, requests.handles
      ensures Valid() && moments == old(moments) + [End(call)] && answers == old(answers) + [false]
      ensures Now().open == old(Now().open[..|Now().open| - 1])
      ensures requests.log == old(requests.log) + if serial != 0 && call.outcome != 0 then [Cancelled(serial)] else []
    {
      if serial != 0 && call.outcome != 0 {
        requests.Cancel(serial);
        Note(End(call), false, Now().open[..|Now().open| - 1]);
      } else {
        Leave(call);
      }
    }

    // Turns a native "do not retry" into a retry when the response is the one that the fleet's
    // last engagement waits for and the failed target is gone from every queue.
    method RunRetry(call: Call) returns (retry: bool)
      requires Valid() && call.Retry?
      modifies this, requests, requests.records, requests.handles
      ensures Valid() && After(Around(call)) && answers[|answers| - 1] == retry
      ensures call.native ==> retry
      ensures retry && !call.native ==>
        enabled && currentCourse.Some? && Recoverable(call, currentCourse.value) && EndsWithRecovery(requests.log, call)
      ensures
        (&& call.inner == [] && old(enabled) && !call.throws && currentCourse.Some?
         && Recoverable(call, currentCourse.value) && Waits(old(requests.Current()).grants, call))
        ==> retry
      decreases call, 0
    {
      Enter(call);
      RunAll(call.inner);
      retry := Answer(call);
    }

    // The native call has answered: the answer of the hook, and the end of the call.
    method Answer(call: Call) returns (retry: bool)
      requires Valid() && call.Retry? && Now().open != [] && Now().open[|Now().open| - 1].course == currentCourse
      modifies this`answers, this`moments, this`run, requests, requests.records, requests.handles
      ensures Valid() && moments == old(moments) + [End(call)] && answers == old(answers) + [retry]
      ensures Now().open == old(Now().open[..|Now().open| - 1]) && old(requests.log) <= requests.log
      ensures enabled == old(enabled) && currentCourse == old(currentCourse) && (call.native ==> retry)
      ensures retry && !call.native ==> MayForce(old(Now()), call) && EndsWithRecovery(requests.log, call)
      ensures old(MayForce(Now(), call) && Waits(Now().grants, call)) ==> retry
    {
      ghost var h := Now();
      retry := Decide(call);
      Note(End(call), retry, h.open[..|h.open| - 1]);
    }

    // The part of it that follows the native call.
    method Decide(call: Call) returns (retry: bool)
      requires Valid() && call.Retry?
      modifies requests, requests.records, requests.handles
      ensures requests.Valid() && requests.serial == old(requests.serial) && old(requests.log) <= requests.log
      ensures Decided(Now(), call, retry, requests.Current().grants)
      ensures retry && !call.native ==> call.queue.Queue? && EndsWithRecovery(requests.log, call)
    {
      retry := call.native;
      if retry || !enabled || currentCourse.None? || call.throws {
        return;
      }
      var c := currentCourse.value;
      var s := Inspect(call.queue, call.target);
      if c.target != call.target
         || !CanAdvance(s, c.fleet, call.target, c.outstandingAtEntry, c.queue == call.queue.Pointer(), true) {
        return;
      }
      var absent := AbsentFromAllQueues(call.queues, call.target);
      if !absent {
        return;
      }
      retry := requests.Consume(call.queue.Pointer(), s, call.target, call.at);
    }

    // Keeps, for the duration of the native handler, which failed response is being handled.
    method RunCourse(call: Call)
      requires Valid() && call.Course?
      modifies this, requests, requests.records, requests.handles
      ensures Valid() && After(Around(call))
      decreases call, 0
    {
      var previous := EnterCourse(call);
      RunAll(call.inner);
      LeaveCourse(call, previous);
    }

    method EnterCourse(call: Call) returns (previous: Option<CourseContext>)
      requires Valid() && call.Course?
      modifies this, requests, requests.records, requests.handles
      ensures Valid() && moments == old(moments) + [Begin(call)] && answers == old(answers) + [false]
      ensures previous == old(currentCourse) && Now().open == old(Now()).open + [Frame(0, previous)]
      ensures old(requests.log) <= requests.log
    {
      if !enabled {
        requests.Clear();
      }
      var context := NO_CONTEXT.(fleet := call.fleet);
      if enabled && !call.success && !call.recall {
        if call.throws {
          context := NO_CONTEXT;
        } else if call.boxed.Some? {
          context := CourseContext(call.fleet, call.boxed.value, call.found.Pointer(), call.found.Queue? && call.found.engaging);
        }
      }
      previous := currentCourse;
      currentCourse := Some(context);
      Note(Begin(call), false, Now().open + [Frame(0, previous)]);
    }

    method LeaveCourse(call: Call, previous: Option<CourseContext>)
      requires Valid() && call.Course? && Now().open != [] && Now().open[|Now().open| - 1].course == previous
      modifies this
      ensures Valid() && moments == old(moments) + [End(call)] && answers == old(answers) + [false]
      ensures currentCourse == previous && Now().open == old(Now().open[..|Now().open| - 1])
    {
      currentCourse := previous;
      Note(End(call), false, Now().open[..|Now().open| - 1]);
    }
  }

  // Any run of native calls, nested to any depth: its retries are answered as the calls before
  // make right, and what the table went through authorized each recovery once.
  method Run(calls: seq<Call>) returns (hooks: Hooks, answers: seq<bool>)
    ensures fresh(hooks) && hooks.Valid() && answers == hooks.answers
    ensures Answered(Timeline(calls), answers)
    ensures OnceEach(hooks.requests.log)
  {
    hooks := new Hooks();
    hooks.RunAll(calls);
    answers := hooks.answers;
    assert hooks.moments == Timeline(calls);
    RetriesAreRight(Timeline(calls), answers, hooks.run);
    RecoveriesAreAuthorized(hooks.requests.log, hooks.requests.run);
  }

  lemma RetriesAreRight(tl: seq<Moment>, answers: seq<bool>, run: seq<HookState>)
    requires HooksAccept(tl, answers, run)
    ensures Answered(tl, answers)
  {
    var _ := RunAnswersRight(tl, answers, run, |tl|);
    assert tl[..|tl|] == tl && answers[..|answers|] == answers;
  }

  // The recovery logged at n was authorized by the engagement logged at i.
  ghost predicate AuthorizedBy(log: seq<Event>, i: int, n: int)
    requires 0 <= n < |log| && log[n].Consumed?
  {
    && QueueLedger.Stands(log, i, n) && log[i].serial == log[n].serial && log[i].queue == log[n].queue
    && log[i].state.fleet == log[n].fleet && log[i].state.front == log[n].target
    && log[i].state.attempt == log[n].attempt && log[n].at - log[i].at < LIFETIME_S
  }

  // Each recovery has an engagement that authorized it, and no two have the same.
  ghost predicate OnceEach(log: seq<Event>) {
    && (forall n :: 0 <= n < |log| && log[n].Consumed? ==> exists i :: AuthorizedBy(log, i, n))
    && (forall n, k :: 0 <= n < k < |log| && log[n].Consumed? && log[k].Consumed? ==> log[n].serial != log[k].serial)
    && Spent(log) <= Engagements(log)
  }

  lemma RecoveriesAreAuthorized(log: seq<Event>, run: seq<Ledger>)
    requires QueueLedger.Accepts(log, run)
    ensures OnceEach(log)
  {
    forall n | 0 <= n < |log| && log[n].Consumed? ensures exists i :: AuthorizedBy(log, i, n) {
      var i := ConsumeIsAuthorized(log, run, n);
      assert AuthorizedBy(log, i, n);
    }
    forall n, k | 0 <= n < k < |log| && log[n].Consumed? && log[k].Consumed? ensures log[n].serial != log[k].serial {
      NoGrantConsumedTwice(log, run, n, k);
    }
    NoMoreRecoveriesThanEngagements(log, run, |log|);
    assert log[..|log|] == log;
  }
}
