// What one native call does to the state of the recovery hooks, as it begins and as it ends, and
// why a run of such steps answers its retries as the calls make right.
module HookSteps {
  import opened Options
  import opened QueueLedger
  import opened RecoveryRequests
  import opened NativeCalls
  import opened RecoveryTrail

  const MAX_QUEUE_LENGTH := 128

  const NO_STATE := QueueState(false, 0, 0, 0.0, 0, false, false)

  // Which entries an inspection looks at.
  function Inspected(queue: Queue, target: int): seq<Option<int>>
    requires queue.Queue? && queue.items.Some?
  {
    if target != 0 || |queue.items.value| == 0 then queue.items.value else queue.items.value[..1]
  }

  predicate Readable(queue: Queue, target: int) {
    && queue.Queue? && queue.fleet != 0 && queue.items.Some? && |queue.items.value| <= MAX_QUEUE_LENGTH
    && None !in Inspected(queue, target)
  }

  // No queue of the manager holds the target, and all of them could be read. A null entry of
  // the manager's array is None.
  predicate Absent(queues: Option<seq<Option<Queue>>>, target: int) {
    && queues.Some?
    && forall i :: 0 <= i < |queues.value| && queues.value[i].Some? ==>
         Readable(queues.value[i].value, target) && Some(target) !in queues.value[i].value.items.value
  }

  datatype CourseContext = CourseContext(fleet: int, target: int, queue: Object, outstandingAtEntry: bool)

  const NO_CONTEXT := CourseContext(0, 0, 0, false)

  // The response being handled failed on this target of this queue, and the target is gone.
  predicate Recoverable(call: Call, c: CourseContext)
    requires call.Retry?
  {
    && c.target == call.target != 0 && c.queue == call.queue.Pointer() && c.outstandingAtEntry
    && Readable(call.queue, call.target) && call.queue.fleet == c.fleet && !call.queue.engaging
    && call.queue.items.value != [] && Some(call.target) !in call.queue.items.value
    && Absent(call.queues, call.target)
  }

  // What is kept of a course response while it is handled: of a failed one, the target, the
  // queue of its fleet, and whether that queue was engaging.
  function ContextOf(course: Call, on: bool): CourseContext
    requires course.Course?
  {
    if !on || course.success || course.recall then NO_CONTEXT.(fleet := course.fleet)
    else if course.throws then NO_CONTEXT
    else if course.boxed.None? then NO_CONTEXT.(fleet := course.fleet)
    else CourseContext(course.fleet, course.boxed.value, course.found.Pointer(), course.found.Queue? && course.found.engaging)
  }

  // What an inspection of a queue that engages gives.
  lemma EngagesUsably(queue: Queue, call: Call, s: QueueState)
    requires call.Engage? && !call.throws && queue == call.queue
    requires s.valid <==> Readable(queue, 0)
    requires s.fleet == FleetOf(queue)
    requires s.valid ==>
      && s.attempt == queue.attempt && s.count == |queue.items.value| && (s.count > 0 ==> queue.items.value[0] == Some(s.front))
    ensures Sees(s, queue) && (Usable(s) <==> Engages(call))
  {
    if queue.Queue? && queue.items.Some? && queue.items.value != [] {
      assert queue.items.value[..1] == [queue.items.value[0]];
    }
  }

  // A call in progress: the serial it was given, 0 being none, and the context around it.
  datatype Frame = Frame(serial: nat, course: Option<CourseContext>)

  datatype HookState = HookState(grants: map<int, Grant>, serial: nat, enabled: bool, course: Option<CourseContext>, open: seq<Frame>)

  const INITIAL := HookState(map[], 0, true, None, [])

  predicate Forgets(h: HookState, call: Call) {
    || call.ClearAll? || call.ResetTracking? || (call.Engage? && call.throws)
    || ((call.Engage? || call.Retry? || call.Course?) && !h.enabled)
  }

  ghost predicate Begins(h: HookState, call: Call, h': HookState) {
    && h'.enabled == (if call.Configure? then call.enabled else h.enabled)
    && h'.course == (if call.Course? then Some(ContextOf(call, h.enabled)) else h.course)
    && h'.open == h.open + [Frame(if call.Engage? && !Forgets(h, call) then h'.serial else 0, h.course)]
    && if call.Engage? && !Forgets(h, call) then
         h'.serial == h.serial + 1 && exists state :: SeenAs(h.grants, h.serial, call, state, h'.grants)
       else
         && h'.serial == h.serial
         && h'.grants == if Forgets(h, call) then map[]
                         else if call.Collect? then Step(Ledger(h.grants, h.serial), Collected(call.queueId)).grants
                         else h.grants
  }

  // A usable engagement is remembered as what was seen of its queue.
  ghost predicate SeenAs(grants: map<int, Grant>, serial: nat, call: Call, state: QueueState, grants': map<int, Grant>) {
    && call.Engage? && Sees(state, call.queue) && (Usable(state) <==> Engages(call))
    && Remembering(grants, grants', serial + 1, call.queue.Pointer(), state, call.at)
  }

  ghost predicate Ending(h: HookState, call: Call, answer: bool, h': HookState) {
    && h.open != [] && h'.enabled == h.enabled && h'.serial == h.serial && (answer ==> call.Retry?)
    && var top := h.open[|h.open| - 1];
       && h'.open == h.open[..|h.open| - 1] && h'.course == top.course
       && if call.Retry? then Decided(h, call, answer, h'.grants)
          else h'.grants == if call.Engage? && call.outcome != 0 && top.serial != 0 then Without(h.grants, top.serial)
                            else h.grants
  }

  // The hook may force the retry, as far as the table is not concerned.
  predicate MayForce(h: HookState, call: Call)
    requires call.Retry?
  {
    h.enabled && !call.throws && h.course.Some? && Recoverable(call, h.course.value)
  }

  // The table holds the request that the retry is about.
  predicate Waits(grants: map<int, Grant>, call: Call)
    requires call.Retry? && call.queue.Queue?
  {
    Matches(grants, call.queue.id, NO_STATE.(fleet := call.queue.fleet, attempt := call.queue.attempt), call.target, call.at)
  }

  ghost predicate Decided(h: HookState, call: Call, answer: bool, grants': map<int, Grant>)
    requires call.Retry?
  {
    && (call.native ==> answer)
    && (MayForce(h, call) && Waits(h.grants, call) ==> answer)
    && if answer && !call.native then
         MayForce(h, call) && Waits(h.grants, call) && grants' == h.grants - {call.queue.fleet}
       else OnlyStaleLost(h.grants, grants', call.at)
  }

  ghost predicate Passes(h: HookState, m: Moment, answer: bool, h': HookState) {
    match m
    case Begin(call) => !answer && Begins(h, call, h')
    case End(call) => Ending(h, call, answer, h')
  }

  ghost predicate HooksAccept(tl: seq<Moment>, answers: seq<bool>, run: seq<HookState>) {
    && |answers| == |tl| && |run| == |tl| + 1 && run[0] == INITIAL
    && forall i :: 0 <= i < |tl| ==> Passes(run[i], tl[i], answers[i], run[i + 1])
  }

  // ---- What the steps keep ----

  // The context is that of the course response at m, if any.
  predicate ContextAt(tl: seq<Moment>, m: Option<nat>, course: Option<CourseContext>)
    requires m.Some? ==> m.value < |tl| && tl[m.value].call.Course?
  {
    match m
    case None => course == None
    case Some(k) => course == Some(ContextOf(tl[k].call, Enabled(tl[..k])))
  }

  lemma ContextLater(tl: seq<Moment>, tl': seq<Moment>, m: Option<nat>, course: Option<CourseContext>)
    requires tl <= tl' && (m.Some? ==> m.value < |tl| && tl[m.value].call.Course?) && ContextAt(tl, m, course)
    ensures (m.Some? ==> tl'[m.value].call.Course?) && ContextAt(tl', m, course)
  {
    if m.Some? {
      assert tl'[..m.value] == tl[..m.value];
    }
  }

  // The state of the hooks beside the table is what the calls so far make it.
  ghost predicate Hears(tl: seq<Moment>, enabled: bool, course: Option<CourseContext>) {
    enabled == Enabled(tl) && ContextAt(tl, HandledNow(tl), course)
  }

  // The frame of the k-th call in progress.
  ghost predicate Framed(tl: seq<Moment>, open: seq<nat>, k: nat, frame: Frame, issued: map<nat, nat>)
    requires k < |open| && forall i :: 0 <= i < |open| ==> open[i] < |tl|
  {
    && (if frame.serial == 0 then !EngagedAt(tl, open[k]) else frame.serial in issued && issued[frame.serial] == open[k])
    && ContextAt(tl, Handled(tl, open[..k]), frame.course)
  }

  ghost predicate Framing(tl: seq<Moment>, open: seq<nat>, frames: seq<Frame>, issued: map<nat, nat>) {
    && |frames| == |open| && (forall i :: 0 <= i < |open| ==> open[i] < |tl|)
    && forall k :: 0 <= k < |frames| ==> Framed(tl, open, k, frames[k], issued)
  }

  ghost predicate Follows(tl: seq<Moment>, answers: seq<bool>, h: HookState, issued: map<nat, nat>) {
    && Agree(tl, answers, h.grants, h.serial, issued) && Hears(tl, h.enabled, h.course)
    && Framing(tl, Open(tl), h.open, issued)
  }

  // The conditions under which the hook lets a retry through, apart from the table, are those
  // that the calls give.
  lemma ForcibleIs(tl: seq<Moment>, call: Call, enabled: bool, course: Option<CourseContext>)
    requires Hears(tl, enabled, course) && call.Retry?
    ensures Forcible(tl, call) <==> enabled && !call.throws && course.Some? && Recoverable(call, course.value)
  {
  }

  // ---- A call begins ----

  // When the serial of a call that begins is given out.
  function IssuedBy(h: HookState, call: Call, n: nat, issued: map<nat, nat>): map<nat, nat> {
    if call.Engage? && !Forgets(h, call) then issued[h.serial + 1 := n] else issued
  }

  lemma EngagementAgrees(tl: seq<Moment>, answers: seq<bool>, h: HookState, issued: map<nat, nat>, call: Call,
                         state: QueueState, grants': map<int, Grant>)
    requires Agree(tl, answers, h.grants, h.serial, issued) && Enabled(tl)
    requires SeenAs(h.grants, h.serial, call, state, grants') && !call.throws
    ensures Agree(tl + [Begin(call)], answers + [false], grants', h.serial + 1, issued[h.serial + 1 := |tl|])
  {
    RememberedOne(tl, answers, h.grants, h.serial, issued, call, state, grants');
  }

  lemma EngageAgrees(tl: seq<Moment>, answers: seq<bool>, h: HookState, issued: map<nat, nat>, call: Call, h': HookState)
    requires Agree(tl, answers, h.grants, h.serial, issued) && h.enabled == Enabled(tl) && Begins(h, call, h')
    requires call.Engage? && !Forgets(h, call)
    ensures Agree(tl + [Begin(call)], answers + [false], h'.grants, h'.serial, issued[h.serial + 1 := |tl|])
  {
    var state :| SeenAs(h.grants, h.serial, call, state, h'.grants);
    EngagementAgrees(tl, answers, h, issued, call, state, h'.grants);
  }

  // Any other call.
  lemma OtherAgrees(tl: seq<Moment>, answers: seq<bool>, grants: map<int, Grant>, serial: nat, issued: map<nat, nat>, call: Call)
    requires Agree(tl, answers, grants, serial, issued) && !call.Engage? && !Clears(tl, Begin(call))
    ensures Agree(tl + [Begin(call)], answers + [false],
                  if call.Collect? then Step(Ledger(grants, serial), Collected(call.queueId)).grants else grants, serial, issued)
  {
    if call.Collect? {
      CollectedQueue(tl, answers, grants, serial, issued, call.queueId);
    } else {
      QuietUnmoved(tl, answers, grants, serial, issued, Begin(call));
    }
  }

  lemma ForgettingAgrees(tl: seq<Moment>, answers: seq<bool>, h: HookState, issued: map<nat, nat>, call: Call)
    requires Agree(tl, answers, h.grants, h.serial, issued) && h.enabled == Enabled(tl) && Forgets(h, call)
    ensures Agree(tl + [Begin(call)], answers + [false], map[], h.serial, issued)
  {
    ClearedAll(tl, answers, h.grants, h.serial, issued, Begin(call));
  }

  lemma BeginAgrees(tl: seq<Moment>, answers: seq<bool>, h: HookState, issued: map<nat, nat>, call: Call, h': HookState)
    requires Agree(tl, answers, h.grants, h.serial, issued) && h.enabled == Enabled(tl) && Begins(h, call, h')
    ensures Agree(tl + [Begin(call)], answers + [false], h'.grants, h'.serial, IssuedBy(h, call, |tl|, issued))
  {
    if Forgets(h, call) {
      ForgettingAgrees(tl, answers, h, issued, call);
    } else if call.Engage? {
      EngageAgrees(tl, answers, h, issued, call, h');
    } else {
      OtherAgrees(tl, answers, h.grants, h.serial, issued, call);
    }
  }

  lemma BeginHears(tl: seq<Moment>, h: HookState, call: Call, h': HookState)
    requires Hears(tl, h.enabled, h.course) && Begins(h, call, h')
    ensures Hears(tl + [Begin(call)], h'.enabled, h'.course)
  {
    var tl' := tl + [Begin(call)];
    HandledBegin(tl, call);
    EnabledMore(tl, Begin(call));
    if call.Course? {
      assert tl'[..|tl|] == tl;
    } else {
      ContextLater(tl, tl', HandledNow(tl), h.course);
    }
  }

  // A frame stays what it is while its call is in progress.
  lemma FramedMore(tl: seq<Moment>, m: Moment, open: seq<nat>, open': seq<nat>, k: nat, frame: Frame,
                   issued: map<nat, nat>, issued': map<nat, nat>)
    requires k < |open| && k < |open'| && open'[..k] == open[..k] && open'[k] == open[k]
    requires forall i :: 0 <= i < |open| ==> open[i] < |tl|
    requires forall i :: 0 <= i < |open'| ==> open'[i] < |tl| + 1
    requires Framed(tl, open, k, frame, issued) && forall s :: s in issued ==> s in issued' && issued'[s] == issued[s]
    ensures Framed(tl + [m], open', k, frame, issued')
  {
    EngagedMore(tl, m, open[k]);
    HandledMore(tl, tl + [m], open[..k]);
    ContextLater(tl, tl + [m], Handled(tl, open[..k]), frame.course);
  }

  lemma NewFrame(tl: seq<Moment>, h: HookState, issued: map<nat, nat>, call: Call, h': HookState)
    requires Hears(tl, h.enabled, h.course) && Begins(h, call, h')
    ensures var open' := Open(tl) + [|tl|];
            Framed(tl + [Begin(call)], open', |Open(tl)|, h'.open[|h.open|], IssuedBy(h, call, |tl|, issued))
  {
    var open' := Open(tl) + [|tl|];
    EngagedMore(tl, Begin(call), |tl|);
    assert open'[..|Open(tl)|] == Open(tl);
    HandledMore(tl, tl + [Begin(call)], Open(tl));
    ContextLater(tl, tl + [Begin(call)], HandledNow(tl), h.course);
  }

  lemma BeginFrames(tl: seq<Moment>, m: Moment, open: seq<nat>, frames: seq<Frame>, frame: Frame,
                    issued: map<nat, nat>, issued': map<nat, nat>)
    requires Framing(tl, open, frames, issued) && forall s :: s in issued ==> s in issued' && issued'[s] == issued[s]
    requires Framed(tl + [m], open + [|tl|], |open|, frame, issued')
    ensures Framing(tl + [m], open + [|tl|], frames + [frame], issued')
  {
    var open' := open + [|tl|];
    forall k | 0 <= k < |frames| ensures Framed(tl + [m], open', k, frames[k], issued') {
      assert open'[..k] == open[..k];
      FramedMore(tl, m, open, open', k, frames[k], issued, issued');
    }
  }

  lemma BeginFollows(tl: seq<Moment>, answers: seq<bool>, h: HookState, issued: map<nat, nat>, call: Call, h': HookState)
    requires Follows(tl, answers, h, issued) && Begins(h, call, h')
    ensures Follows(tl + [Begin(call)], answers + [false], h', IssuedBy(h, call, |tl|, issued))
  {
    BeginAgrees(tl, answers, h, issued, call, h');
    BeginHears(tl, h, call, h');
    OpenMore(tl, Begin(call));
    NewFrame(tl, h, issued, call, h');
    BeginFrames(tl, Begin(call), Open(tl), h.open, h'.open[|h.open|], issued, IssuedBy(h, call, |tl|, issued));
  }

  // ---- A call ends ----

  lemma EndAgrees(tl: seq<Moment>, answers: seq<bool>, h: HookState, issued: map<nat, nat>, call: Call, answer: bool, h': HookState)
    requires Follows(tl, answers, h, issued) && Ending(h, call, answer, h')
    ensures Agree(tl + [End(call)], answers + [answer], h'.grants, h'.serial, issued)
  {
    var top := h.open[|h.open| - 1];
    assert Framed(tl, Open(tl), |h.open| - 1, top, issued);
    if call.Retry? {
      if answer && !call.native {
        SpentOne(tl, answers, h.grants, h.serial, issued, call);
      } else {
        NotForced(tl, answers, h.grants, h.serial, issued, call, answer, h'.grants);
      }
    } else if call.Engage? && call.outcome != 0 {
      if top.serial != 0 {
        CancelledOne(tl, answers, h.grants, h.serial, issued, call, top.serial);
      } else {
        NothingToCancel(tl, answers, h.grants, h.serial, issued, call, Open(tl)[|h.open| - 1]);
      }
    } else {
      QuietUnmoved(tl, answers, h.grants, h.serial, issued, End(call));
    }
  }

  lemma EndFrames(tl: seq<Moment>, call: Call, open: seq<nat>, frames: seq<Frame>, issued: map<nat, nat>)
    requires Framing(tl, open, frames, issued) && open != []
    ensures Framing(tl + [End(call)], open[..|open| - 1], frames[..|open| - 1], issued)
    ensures ContextAt(tl + [End(call)], Handled(tl + [End(call)], open[..|open| - 1]), frames[|open| - 1].course)
  {
    var n := |open| - 1;
    assert Framed(tl, open, n, frames[n], issued);
    HandledMore(tl, tl + [End(call)], open[..n]);
    ContextLater(tl, tl + [End(call)], Handled(tl, open[..n]), frames[n].course);
    forall k | 0 <= k < n ensures Framed(tl + [End(call)], open[..n], k, frames[k], issued) {
      FramedMore(tl, End(call), open, open[..n], k, frames[k], issued, issued);
    }
  }

  lemma EndFollows(tl: seq<Moment>, answers: seq<bool>, h: HookState, issued: map<nat, nat>, call: Call, answer: bool, h': HookState)
    requires Follows(tl, answers, h, issued) && Ending(h, call, answer, h')
    ensures Follows(tl + [End(call)], answers + [answer], h', issued)
  {
    EndAgrees(tl, answers, h, issued, call, answer, h');
    OpenMore(tl, End(call));
    EnabledMore(tl, End(call));
    EndFrames(tl, call, Open(tl), h.open, issued);
  }

  // ---- The law ----

  lemma DecidedRight(tl: seq<Moment>, answers: seq<bool>, h: HookState, issued: map<nat, nat>, call: Call, answer: bool,
                     grants': map<int, Grant>)
    requires Follows(tl, answers, h, issued) && call.Retry? && Decided(h, call, answer, grants')
    ensures AnsweredRight(tl, answers, call, answer)
  {
    ForcibleIs(tl, call, h.enabled, h.course);
    if MayForce(h, call) {
      ConsumeAnswers(tl, answers, h.grants, h.serial, issued, call,
                     NO_STATE.(fleet := call.queue.fleet, attempt := call.queue.attempt));
    }
  }

  lemma StepFollows(tl: seq<Moment>, answers: seq<bool>, h: HookState, issued: map<nat, nat>, m: Moment, answer: bool, h': HookState)
    returns (issued': map<nat, nat>)
    requires Follows(tl, answers, h, issued) && Passes(h, m, answer, h')
    ensures Follows(tl + [m], answers + [answer], h', issued')
    ensures m.End? && m.call.Retry? ==> AnsweredRight(tl, answers, m.call, answer)
  {
    match m {
      case Begin(call) =>
        BeginFollows(tl, answers, h, issued, call, h');
        issued' := IssuedBy(h, call, |tl|, issued);
      case End(call) =>
        EndFollows(tl, answers, h, issued, call, answer, h');
        if call.Retry? {
          DecidedRight(tl, answers, h, issued, call, answer, h'.grants);
        }
        issued' := issued;
    }
  }

  // Every run of such steps answers its retries right.
  lemma {:induction false} RunAnswersRight(tl: seq<Moment>, answers: seq<bool>, run: seq<HookState>, n: nat)
    returns (issued: map<nat, nat>)
    requires HooksAccept(tl, answers, run) && n <= |tl|
    ensures Follows(tl[..n], answers[..n], run[n], issued) && Answered(tl[..n], answers[..n])
  {
    if n == 0 {
      issued := map[];
    } else {
      var k := n - 1;
      issued := RunAnswersRight(tl, answers, run, k);
      SliceMore(tl, answers, k);
      issued := StepAnswersRight(tl[..k], answers[..k], run[k], issued, tl[k], answers[k], run[n]);
    }
  }

  lemma SliceMore(tl: seq<Moment>, answers: seq<bool>, k: nat)
    requires |answers| == |tl| && k < |tl|
    ensures tl[..k + 1] == tl[..k] + [tl[k]] && answers[..k + 1] == answers[..k] + [answers[k]]
  {
  }

  lemma StepAnswersRight(tl: seq<Moment>, answers: seq<bool>, h: HookState, issued: map<nat, nat>, m: Moment, answer: bool, h': HookState)
    returns (issued': map<nat, nat>)
    requires Follows(tl, answers, h, issued) && Answered(tl, answers) && Passes(h, m, answer, h')
    ensures Follows(tl + [m], answers + [answer], h', issued') && Answered(tl + [m], answers + [answer])
  {
    issued' := StepFollows(tl, answers, h, issued, m, answer, h');
    AnsweredMore(tl, answers, m, answer);
  }
}
