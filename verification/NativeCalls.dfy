// The native calls that the recovery hooks wrap, and what their answers may be, in terms of the
// calls alone: which engagement authorizes which retry.
module NativeCalls {
  import opened Options

  type Identity = n: nat | n > 0 witness 1

  // A clock reading; the steady clock is past its epoch.
  type Instant = t: int | t > 0 witness 1

  // A pointer passed as a queue, as far as its storage can be read: the list of target ids,
  // an entry being None when it is not a queueable action.
  datatype Queue =
    | NotAQueue
    | Queue(id: Identity, fleet: int, attempt: real, engaging: bool, items: Option<seq<Option<int>>>)
  {
    function Pointer(): nat { if NotAQueue? then 0 else id }
  }

  // One native call, with the calls it makes in turn. throws: an inspection raised an exception.
  datatype Call =
    | Engage(queue: Queue, at: Instant, throws: bool, inner: seq<Call>, outcome: int)
    | Retry(target: int, queue: Queue, at: Instant, throws: bool, inner: seq<Call>, native: bool,
            queues: Option<seq<Option<Queue>>>)
    | Course(fleet: int, success: bool, recall: bool, boxed: Option<int>, throws: bool, found: Queue, inner: seq<Call>)
    | ClearAll(inner: seq<Call>)
    | ResetTracking
    | Collect(queueId: Identity)
    | Configure(enabled: bool)

  // A call begins, makes its inner calls, and ends.
  datatype Moment = Begin(call: Call) | End(call: Call)

  function Timeline(calls: seq<Call>): seq<Moment>
    decreases calls
  {
    if calls == [] then [] else Timeline(calls[..|calls| - 1]) + Around(calls[|calls| - 1])
  }

  function Around(call: Call): seq<Moment>
    decreases call
  {
    match call
    case Engage(_, _, _, inner, _) => [Begin(call)] + Timeline(inner) + [End(call)]
    case Retry(_, _, _, _, inner, _, _) => [Begin(call)] + Timeline(inner) + [End(call)]
    case Course(_, _, _, _, _, _, inner) => [Begin(call)] + Timeline(inner) + [End(call)]
    case ClearAll(inner) => [Begin(call)] + Timeline(inner) + [End(call)]
    case _ => [Begin(call), End(call)]
  }

  // ---- What holds after some moments ----

  // The hooks are enabled until they are configured otherwise.
  function Enabled(tl: seq<Moment>): bool {
    if tl == [] then true else
      var last := tl[|tl| - 1];
      if last.Begin? && last.call.Configure? then last.call.enabled else Enabled(tl[..|tl| - 1])
  }

  // The positions at which the calls began that have not ended, the innermost last.
  function Open(tl: seq<Moment>): (open: seq<nat>)
    ensures forall k :: 0 <= k < |open| ==> open[k] < |tl| && tl[open[k]].Begin?
  {
    if tl == [] then [] else
      var before, n := Open(tl[..|tl| - 1]), |tl| - 1;
      if tl[n].Begin? then before + [n] else if before == [] then [] else before[..|before| - 1]
  }

  // The innermost open call that is a course response, if any.
  function Handled(tl: seq<Moment>, open: seq<nat>): (m: Option<nat>)
    requires forall k :: 0 <= k < |open| ==> open[k] < |tl|
    ensures m.Some? ==> m.value in open && tl[m.value].call.Course?
  {
    if open == [] then None
    else if tl[open[|open| - 1]].call.Course? then Some(open[|open| - 1])
    else Handled(tl, open[..|open| - 1])
  }

  // ---- Engagements ----

  function FleetOf(queue: Queue): int {
    if queue.Queue? then queue.fleet else 0
  }

  // Whether the call engages a queue whose first target can be read.
  predicate Engages(call: Call) {
    && call.Engage? && !call.throws && call.queue.Queue? && call.queue.fleet != 0
    && call.queue.items.Some? && 0 < |call.queue.items.value| <= 128
    && call.queue.items.value[0].Some? && call.queue.items.value[0].value != 0
  }

  predicate EngagedAt(tl: seq<Moment>, j: nat) {
    j < |tl| && tl[j].Begin? && Engages(tl[j].call) && Enabled(tl[..j])
  }

  // A retry that was forced.
  predicate Forced(m: Moment, answer: bool) {
    m.End? && m.call.Retry? && !m.call.native && answer
  }

  // Everything is forgotten when the session ends or the tracking is reset, when an engagement
  // cannot be inspected, and with any hook that runs while the hooks are disabled.
  predicate Clears(before: seq<Moment>, m: Moment) {
    && m.Begin?
    && (|| m.call.ClearAll? || m.call.ResetTracking?
        || (m.call.Engage? && m.call.throws)
        || ((m.call.Engage? || m.call.Retry? || m.call.Course?) && !Enabled(before)))
  }

  // The call that began at position j ends and says that nothing was dispatched.
  predicate NotDispatched(before: seq<Moment>, m: Moment, j: nat) {
    m.End? && m.call.Engage? && m.call.outcome != 0 && Innermost(before) == Some(j)
  }

  function Innermost(tl: seq<Moment>): Option<nat> {
    var open := Open(tl);
    if open == [] then None else Some(open[|open| - 1])
  }

  // Whether the engagement e that began at position j is over with a moment: forgotten, collected,
  // replaced by another one of its fleet, not dispatched, or spent.
  predicate Over(before: seq<Moment>, m: Moment, answer: bool, j: nat, e: Call)
    requires Engages(e)
  {
    || Clears(before, m)
    || m == Begin(Collect(e.queue.id))
    || (m.Begin? && m.call.Engage? && FleetOf(m.call.queue) == e.queue.fleet)
    || NotDispatched(before, m, j)
    || (Forced(m, answer) && FleetOf(m.call.queue) == e.queue.fleet)
  }

  // The engagement at position j has not ended since.
  ghost predicate Standing(tl: seq<Moment>, answers: seq<bool>, j: nat)
    requires |answers| == |tl|
  {
    EngagedAt(tl, j) && forall k :: j < k < |tl| ==> !Over(tl[..k], tl[k], answers[k], j, tl[j].call)
  }

  // ---- What the table can lose ----

  // When a moment reads the clock, what it reads.
  function Reading(m: Moment): Option<int> {
    if m.Begin? && m.call.Engage? then Some(m.call.at) else if m.End? && m.call.Retry? then Some(m.call.at) else None
  }

  // The engagement at j is the oldest of eight standing ones under thirty seconds old, all of
  // other fleets than the one that engages now.
  ghost predicate Displaced(before: seq<Moment>, answers: seq<bool>, j: nat, m: Moment, eight: set<nat>)
    requires |answers| == |before|
  {
    && EngagedAt(before, j) && m.Begin? && m.call.Engage? && |eight| == 8 && j in eight
    && forall i :: i in eight ==>
         && Standing(before, answers, i) && before[j].call.at <= before[i].call.at
         && m.call.at - before[i].call.at < 30 && before[i].call.queue.fleet != FleetOf(m.call.queue)
  }

  // The engagement at j was seen past its lifetime or displaced at k.
  ghost predicate LostAt(tl: seq<Moment>, answers: seq<bool>, j: nat, k: nat)
    requires |answers| == |tl| && EngagedAt(tl, j)
  {
    && j < k < |tl|
    && (|| (Reading(tl[k]).Some? && Reading(tl[k]).value - tl[j].call.at >= 30)
        || exists eight :: Displaced(tl[..k], answers[..k], j, tl[k], eight))
  }

  ghost predicate Lost(tl: seq<Moment>, answers: seq<bool>, j: nat)
    requires |answers| == |tl| && EngagedAt(tl, j)
  {
    exists k :: LostAt(tl, answers, j, k)
  }

  // ---- Retries ----

  predicate Holds(queue: Queue, target: int) {
    queue.Queue? && queue.items.Some? && Some(target) in queue.items.value
  }

  predicate AllReadable(queue: Queue) {
    && queue.Queue? && queue.fleet != 0 && queue.items.Some? && |queue.items.value| <= 128
    && None !in queue.items.value
  }

  // The target has left the queue, which goes on with another one, and every other queue.
  ghost predicate Gone(call: Call)
    requires call.Retry?
  {
    && call.target != 0 && AllReadable(call.queue) && call.queue.items.value != [] && !call.queue.engaging
    && !Holds(call.queue, call.target) && call.queues.Some?
    && forall k :: 0 <= k < |call.queues.value| && call.queues.value[k].Some? ==>
         AllReadable(call.queues.value[k].value) && !Holds(call.queues.value[k].value, call.target)
  }

  // The response being handled is the failure of this target in this queue.
  predicate Failed(course: Call, call: Call)
    requires course.Course? && call.Retry? && call.queue.Queue?
  {
    && !course.success && !course.recall && !course.throws && course.boxed == Some(call.target)
    && course.fleet == call.queue.fleet && course.found.Queue? && course.found.id == call.queue.id && course.found.engaging
  }

  // What concerns the retry itself, of what it takes to force it.
  ghost predicate Forcible(before: seq<Moment>, call: Call)
    requires call.Retry?
  {
    && Enabled(before) && !call.throws && Gone(call)
    && var m := Handled(before, Open(before));
       m.Some? && Failed(before[m.value].call, call) && Enabled(before[..m.value])
  }

  // The engagement is of the same queue, fleet, attempt and target, and under thirty seconds old.
  predicate SameRequest(e: Call, call: Call)
    requires Engages(e) && call.Retry?
  {
    && call.queue.Queue? && e.queue.id == call.queue.id && e.queue.fleet == call.queue.fleet
    && e.queue.attempt == call.queue.attempt && e.queue.items.value[0] == Some(call.target) && call.at - e.at < 30
  }

  ghost predicate Authorizes(before: seq<Moment>, answers: seq<bool>, j: nat, call: Call)
    requires |answers| == |before| && call.Retry?
  {
    Standing(before, answers, j) && SameRequest(before[j].call, call)
  }

  ghost predicate Pending(before: seq<Moment>, answers: seq<bool>, call: Call)
    requires |answers| == |before| && call.Retry?
  {
    exists j: nat :: Authorizes(before, answers, j, call) && !Lost(before, answers, j)
  }

  // ---- The law ----

  // A retry is answered as the native call answers it, or it is forced by a standing engagement of
  // the same request; and it is forced whenever there is one that has not been lost.
  ghost predicate AnsweredRight(before: seq<Moment>, answers: seq<bool>, call: Call, answer: bool)
    requires |answers| == |before| && call.Retry?
  {
    && (call.native ==> answer)
    && (answer && !call.native ==> Forcible(before, call) && exists j: nat :: Authorizes(before, answers, j, call))
    && (Forcible(before, call) && Pending(before, answers, call) ==> answer)
  }

  // answers[i] is what the retry ending at moment i answered; at other moments it says nothing.
  ghost predicate Answered(tl: seq<Moment>, answers: seq<bool>) {
    && |answers| == |tl|
    && forall i :: 0 <= i < |tl| && tl[i].End? && tl[i].call.Retry? ==>
         AnsweredRight(tl[..i], answers[..i], tl[i].call, answers[i])
  }
}
