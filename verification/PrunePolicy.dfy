// The guard that decides whether native code removed exactly a prefix of a target queue.
module PrunePolicy {
  const ARRAY_SIZE := 8

  type Targets = s: seq<int> | |s| == ARRAY_SIZE witness [0, 0, 0, 0, 0, 0, 0, 0]

  datatype QueueState = QueueState(
    present: bool, fleet: int, count: int, head: int, targets: Targets, captured: int, truncated: bool,
    engaging: bool, lastEngaged: int, pending: int)
  {
    // The captured count never exceeds the array.
    predicate Fits() { captured <= ARRAY_SIZE }

    // The queue of a snapshot that holds all its targets.
    function Queue(): seq<int>
      requires 0 <= count <= ARRAY_SIZE
    {
      targets[..count]
    }

    // The snapshot holds every target, and its head is the first of them.
    predicate Whole() {
      && present && fleet != 0 && 0 < count == captured <= ARRAY_SIZE && !truncated
      && head == targets[0] && forall i :: 0 <= i < count ==> targets[i] != 0
    }
  }

  predicate AllDistinct(ids: seq<int>) {
    forall i, j :: 0 <= i < j < |ids| ==> ids[i] != ids[j]
  }

  // A latch may only name nothing or one of the removed targets.
  predicate NamesOnlyRemoved(latch: int, removed: seq<int>) {
    latch <= 0 || latch in removed
  }

  predicate NamesSurviving(latch: int, queue: seq<int>) {
    latch > 0 && latch in queue
  }

  // The new queue is what is left of the old one after a non-empty prefix was removed, and
  // neither latch names a survivor's place.
  predicate Pruned(before: QueueState, after: QueueState)
    requires before.Fits() && after.Fits()
  {
    && 0 < after.count < before.count && before.captured == before.count && after.captured == after.count
    && var removed := before.Queue()[..before.count - after.count];
       && before.Queue() == removed + after.Queue()
       && NamesOnlyRemoved(after.lastEngaged, removed) && NamesOnlyRemoved(after.pending, removed)
  }

  predicate Candidate(enabled: bool, idle: bool, before: QueueState, after: QueueState)
    requires before.Fits() && after.Fits()
  {
    && enabled && idle && before.present && after.present && before.fleet == after.fleet != 0
    && before.head != 0 && after.head != 0 && before.head != after.head
    && !after.engaging && !before.truncated && !after.truncated
    && Pruned(before, after)
  }

  predicate Stable(expected: QueueState, confirmed: QueueState)
    requires expected.Fits() && confirmed.Fits()
  {
    && expected.present && confirmed.present && expected.fleet == confirmed.fleet != 0
    && 0 < expected.count == confirmed.count == expected.captured == confirmed.captured
    && expected.head == confirmed.head != 0 && !expected.truncated && !confirmed.truncated
    && !expected.engaging && !confirmed.engaging
    && confirmed.lastEngaged == expected.lastEngaged && confirmed.pending == expected.pending
    && confirmed.Queue() == expected.Queue()
    && !NamesSurviving(confirmed.lastEngaged, confirmed.Queue()) && !NamesSurviving(confirmed.pending, confirmed.Queue())
  }

  method IsNoTargetOrRemovedPrefix(target: int, before: QueueState, removedPrefix: int) returns (ok: bool)
    requires 0 <= removedPrefix <= ARRAY_SIZE
    ensures ok <==> NamesOnlyRemoved(target, before.targets[..removedPrefix])
  {
    if target <= 0 {
      return true;
    }
    for index := 0 to removedPrefix
      invariant target !in before.targets[..index]
    {
      if before.targets[index] == target {
        assert before.targets[..removedPrefix][index] == target;
        return true;
      }
    }
    return false;
  }

  method LatchNamesSurvivingTarget(target: int, queue: QueueState) returns (named: bool)
    requires 0 <= queue.count <= ARRAY_SIZE
    ensures named <==> NamesSurviving(target, queue.Queue())
  {
    if target <= 0 {
      return false;
    }
    for index := 0 to queue.count
      invariant target !in queue.targets[..index]
    {
      if queue.targets[index] == target {
        assert queue.Queue()[index] == target;
        return true;
      }
    }
    return false;
  }

  method IsNativePruneResumeCandidate(enabled: bool, idle: bool, before: QueueState, after: QueueState)
    returns (accepted: bool)
    requires before.Fits() && after.Fits()
    ensures accepted <==> Candidate(enabled, idle, before, after)
  {
    if !enabled || !idle || !before.present || !after.present
       || before.fleet == 0 || before.fleet != after.fleet
       || before.count <= 0 || after.count <= 0 || after.count >= before.count
       || before.head == 0 || after.head == 0
       || after.head == before.head || after.engaging
       || before.truncated || after.truncated
       || before.captured != before.count || after.captured != after.count {
      return false;
    }
    var removedPrefix := before.count - after.count;
    ghost var removed := before.Queue()[..removedPrefix];
    assert removed == before.targets[..removedPrefix];
    for index := 0 to after.count
      invariant forall k :: 0 <= k < index ==> after.targets[k] == before.targets[k + removedPrefix]
    {
      if after.targets[index] != before.targets[index + removedPrefix] {
        assert (removed + after.Queue())[index + removedPrefix] != before.Queue()[index + removedPrefix];
        return false;
      }
    }
    assert before.Queue() == removed + after.Queue();
    accepted := IsNoTargetOrRemovedPrefix(after.lastEngaged, before, removedPrefix);
    if accepted {
      accepted := IsNoTargetOrRemovedPrefix(after.pending, before, removedPrefix);
    }
  }

  method IsStableResumePostcondition(expected: QueueState, confirmed: QueueState) returns (ok: bool)
    requires expected.Fits() && confirmed.Fits()
    ensures ok <==> Stable(expected, confirmed)
  {
    if !expected.present || !confirmed.present || expected.fleet == 0
       || confirmed.fleet != expected.fleet || expected.count <= 0
       || confirmed.count != expected.count || expected.head == 0
       || confirmed.head != expected.head || expected.truncated
       || confirmed.truncated || expected.captured != expected.count
       || confirmed.captured != confirmed.count || confirmed.engaging || expected.engaging
       || confirmed.lastEngaged != expected.lastEngaged
       || confirmed.pending != expected.pending {
      return false;
    }
    var latched := LatchNamesSurvivingTarget(confirmed.lastEngaged, confirmed);
    if !latched {
      latched := LatchNamesSurvivingTarget(confirmed.pending, confirmed);
    }
    if latched {
      return false;
    }
    for index := 0 to expected.count
      invariant forall k :: 0 <= k < index ==> confirmed.targets[k] == expected.targets[k]
    {
      if confirmed.targets[index] != expected.targets[index] {
        assert confirmed.Queue()[index] != expected.Queue()[index];
        return false;
      }
    }
    assert confirmed.Queue() == expected.Queue();
    return true;
  }

  // Two successive acceptances make one over both prunes exactly when the head changed over
  // both: the second prune may bring back the first head only if the queue held it twice.
  lemma AcceptancesCompose(enabled: bool, idle: bool, before: QueueState, between: QueueState, after: QueueState)
    requires before.Fits() && between.Fits() && after.Fits()
    requires Candidate(enabled, idle, before, between) && Candidate(enabled, idle, between, after)
    ensures Candidate(enabled, idle, before, after) <==> before.head != after.head
    ensures before.Whole() && after.Whole() && AllDistinct(before.Queue()) ==> Candidate(enabled, idle, before, after)
  {
    var first := before.Queue()[..before.count - between.count];
    var second := between.Queue()[..between.count - after.count];
    var removed := before.Queue()[..before.count - after.count];
    assert before.Queue() == first + (second + after.Queue()) == (first + second) + after.Queue();
    assert removed == first + second;
    assert before.Whole() && after.Whole() ==>
      before.head == before.Queue()[0] && after.head == after.Queue()[0] == before.Queue()[before.count - after.count];
  }

  // With a target queued twice two acceptances need not make one.
  lemma RepeatedHeadDoesNotCompose()
    ensures var before := QueueState(true, 1, 3, 5, [5, 7, 5, 0, 0, 0, 0, 0], 3, false, false, 0, 0);
            var between := QueueState(true, 1, 2, 7, [7, 5, 0, 0, 0, 0, 0, 0], 2, false, false, 0, 0);
            var after := QueueState(true, 1, 1, 5, [5, 0, 0, 0, 0, 0, 0, 0], 1, false, false, 0, 0);
            && before.Whole() && between.Whole() && after.Whole()
            && Candidate(true, true, before, between) && Candidate(true, true, between, after)
            && !Candidate(true, true, before, after)
  {
    var before := QueueState(true, 1, 3, 5, [5, 7, 5, 0, 0, 0, 0, 0], 3, false, false, 0, 0);
    var between := QueueState(true, 1, 2, 7, [7, 5, 0, 0, 0, 0, 0, 0], 2, false, false, 0, 0);
    var after := QueueState(true, 1, 1, 5, [5, 0, 0, 0, 0, 0, 0, 0], 1, false, false, 0, 0);
    assert before.Queue() == [5] + between.Queue();
    assert between.Queue() == [7] + after.Queue();
  }

  // An accepted snapshot is stable against itself exactly when neither latch names one of its
  // targets, which distinct ids guarantee: a latch may only name a removed target.
  lemma AcceptedIsStable(enabled: bool, idle: bool, before: QueueState, after: QueueState)
    requires before.Fits() && after.Fits() && Candidate(enabled, idle, before, after)
    ensures Stable(after, after) <==>
              !NamesSurviving(after.lastEngaged, after.Queue()) && !NamesSurviving(after.pending, after.Queue())
    ensures AllDistinct(before.Queue()) ==> Stable(after, after)
  {
    var k := before.count - after.count;
    var removed := before.Queue()[..k];
    assert forall i :: 0 <= i < after.count ==> after.Queue()[i] == before.Queue()[i + k];
    assert forall i :: 0 <= i < k ==> removed[i] == before.Queue()[i];
  }

  // With a target queued twice the accepted snapshot need not be stable.
  lemma RepeatedTargetIsUnstable()
    ensures var before := QueueState(true, 1, 3, 5, [5, 7, 5, 0, 0, 0, 0, 0], 3, false, false, 0, 0);
            var after := QueueState(true, 1, 2, 7, [7, 5, 0, 0, 0, 0, 0, 0], 2, false, false, 5, 0);
            before.Whole() && after.Whole() && Candidate(true, true, before, after) && !Stable(after, after)
  {
    var before := QueueState(true, 1, 3, 5, [5, 7, 5, 0, 0, 0, 0, 0], 3, false, false, 0, 0);
    var after := QueueState(true, 1, 2, 7, [7, 5, 0, 0, 0, 0, 0, 0], 2, false, false, 5, 0);
    assert before.Queue() == [5] + after.Queue();
    assert after.Queue()[1] == 5;
  }
}
