// The screen-update dispatcher of screen_update_hook.cc, which drives the fleet observer. A
// callback is an id, 0 standing for a null pointer; what it calls in turn is given by a function,
// up to the point where it throws, if it does.
module ScreenUpdate {
  datatype Call = Register(callback: nat) | Dispatch

  type Callbacks = nat -> seq<Call>

  // How often a callback has been run.
  function Times(log: seq<nat>, callback: nat): nat {
    multiset(log)[callback]
  }

  ghost predicate Distinct(callbacks: seq<nat>) {
    0 !in callbacks && forall i, j :: 0 <= i < j < |callbacks| ==> callbacks[i] != callbacks[j]
  }

  // Calls from outside: registrations in order, and what each dispatch then runs.
  function Registered(callbacks: seq<nat>, call: Call): seq<nat> {
    if call.Register? && call.callback != 0 && call.callback !in callbacks then callbacks + [call.callback] else callbacks
  }

  function CallbacksAfter(calls: seq<Call>): seq<nat> {
    if calls == [] then [] else Registered(CallbacksAfter(calls[..|calls| - 1]), calls[|calls| - 1])
  }

  function RunsAfter(calls: seq<Call>): seq<nat> {
    if calls == [] then [] else
      var before := calls[..|calls| - 1];
      RunsAfter(before) + if calls[|calls| - 1].Dispatch? then CallbacksAfter(before) else []
  }

  class Dispatcher {
    const body: Callbacks
    var callbacks: seq<nat>
    var dispatching: bool
    ghost var runs: seq<nat>   // the callbacks run so far

    ghost predicate Valid()
      reads this
    {
      Distinct(callbacks)
    }

    constructor (body: Callbacks)
      ensures Valid() && this.body == body && callbacks == [] && !dispatching && runs == []
    {
      this.body, callbacks, dispatching, runs := body, [], false, [];
    }

    // A registration during a dispatch is refused; a repeated one is accepted without effect.
    method RegisterCallback(callback: nat) returns (accepted: bool)
      requires Valid()
      modifies this`callbacks
      ensures Valid()
      ensures accepted <==> callback != 0 && !dispatching
      ensures callbacks == if dispatching then old(callbacks) else Registered(old(callbacks), Register(callback))
    {
      if callback == 0 || dispatching {
        return false;
      }
      if callback !in callbacks {
        callbacks := callbacks + [callback];
      }
      return true;
    }

    // Every registered callback runs once, in the order of registration, whatever the callbacks do;
    // a dispatch from within one of them runs none.
    method DispatchCallbacks()
      requires Valid()
      modifies this
      ensures Valid() && callbacks == old(callbacks) && dispatching == old(dispatching)
      ensures runs == old(runs) + if old(dispatching) then [] else callbacks
      decreases if dispatching then 0 else 2
    {
      if dispatching {
        return;
      }
      dispatching := true;
      for i := 0 to |callbacks|
        invariant Valid() && callbacks == old(callbacks) && dispatching && runs == old(runs) + callbacks[..i]
      {
        runs := runs + [callbacks[i]];
        RunCalls(body(callbacks[i]));
      }
      dispatching := false;
    }

    // What one callback calls while it runs.
    method RunCalls(calls: seq<Call>)
      requires Valid() && dispatching
      modifies this
      ensures Valid() && dispatching && callbacks == old(callbacks) && runs == old(runs)
      decreases 1
    {
      for i := 0 to |calls|
        invariant Valid() && dispatching && callbacks == old(callbacks) && runs == old(runs)
      {
        match calls[i] {
          case Register(callback) => var _ := RegisterCallback(callback);
          case Dispatch => DispatchCallbacks();
        }
      }
    }
  }

  method Run(body: Callbacks, calls: seq<Call>) returns (d: Dispatcher)
    ensures fresh(d) && d.Valid() && !d.dispatching
    ensures d.callbacks == CallbacksAfter(calls) && d.runs == RunsAfter(calls)
  {
    d := new Dispatcher(body);
    for i := 0 to |calls|
      invariant fresh(d) && d.Valid() && !d.dispatching
      invariant d.callbacks == CallbacksAfter(calls[..i]) && d.runs == RunsAfter(calls[..i])
    {
      assert calls[..i + 1][..i] == calls[..i];
      match calls[i] {
        case Register(callback) => var _ := d.RegisterCallback(callback);
        case Dispatch => d.DispatchCallbacks();
      }
    }
    assert calls[..|calls|] == calls;
  }

  lemma {:induction false} CallbacksAreDistinct(calls: seq<Call>)
    ensures Distinct(CallbacksAfter(calls))
    ensures forall c: nat :: c in CallbacksAfter(calls) <==> c != 0 && Register(c) in calls
  {
    if calls != [] {
      CallbacksAreDistinct(calls[..|calls| - 1]);
      assert calls == calls[..|calls| - 1] + [calls[|calls| - 1]];
    }
  }

  lemma {:induction false} OnceInDistinct(callbacks: seq<nat>, callback: nat)
    requires Distinct(callbacks)
    ensures Times(callbacks, callback) == if callback in callbacks then 1 else 0
  {
    if callbacks != [] {
      var n := |callbacks| - 1;
      assert callbacks == callbacks[..n] + [callbacks[n]];
      OnceInDistinct(callbacks[..n], callback);
    }
  }

  function DispatchesSince(calls: seq<Call>, callback: nat): nat {
    if calls == [] then 0 else
      var before := calls[..|calls| - 1];
      DispatchesSince(before, callback)
      + if calls[|calls| - 1].Dispatch? && callback != 0 && Register(callback) in before then 1 else 0
  }

  // Over any sequence of calls a callback runs as often as there are dispatches after its first
  // registration.
  lemma {:induction false} OncePerDispatch(calls: seq<Call>, callback: nat)
    ensures Times(RunsAfter(calls), callback) == DispatchesSince(calls, callback)
  {
    if calls != [] {
      var before := calls[..|calls| - 1];
      OncePerDispatch(before, callback);
      CallbacksAreDistinct(before);
      OnceInDistinct(CallbacksAfter(before), callback);
    }
  }
}
