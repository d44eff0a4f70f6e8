// The request table of action_queue.h: eight records and the weak handles they own.
module RecoveryRequests {
  import opened QueueLedger
  import NativeCalls

  type Instant = NativeCalls.Instant

  // The runtime's weak handles. Handle 0 is the null handle; a collected target reads as 0.
  class WeakHandles {
    var live: map<nat, Object>
    var next: nat

    ghost predicate Valid()
      reads this
    {
      next > 0 && forall h :: h in live ==> 0 < h < next
    }

    constructor ()
      ensures Valid() && live == map[]
    {
      live, next := map[], 1;
    }

    method New(queue: Object) returns (h: nat)
      requires Valid()
      modifies this
      ensures Valid() && h != 0 && h !in old(live) && live == old(live)[h := queue]
    {
      h := next;
      live := live[h := queue];
      next := next + 1;
    }

    function Get(h: nat): Object
      requires h in live
      reads this
    {
      live[h]
    }

    method Free(h: nat)
      requires Valid() && h in live
      modifies this
      ensures Valid() && live == old(live) - {h}
    {
      live := live - {h};
    }

    // One object is garbage collected.
    method Collect(queue: Object)
      requires Valid()
      modifies this
      ensures Valid() && live == AfterCollection(old(live), queue)
    {
      live := AfterCollection(live, queue);
    }
  }

  function AfterCollection(live: map<nat, Object>, queue: Object): map<nat, Object> {
    map h | h in live :: if live[h] == queue then 0 else live[h]
  }

  datatype Record = Record(handle: nat, fleet: int, target: int, attempt: real, started: int, serial: nat)

  const EMPTY := Record(0, 0, 0, 0.0, 0, 0)

  type Slots = s: seq<Record> | |s| == CAPACITY witness [EMPTY, EMPTY, EMPTY, EMPTY, EMPTY, EMPTY, EMPTY, EMPTY]

  type Index = i: int | 0 <= i < CAPACITY

  predicate Alive(r: Record, live: map<nat, Object>) {
    r.handle in live && live[r.handle] != 0
  }

  // Where the record of a handle, a fleet or a serial is.
  datatype Places = Places(ofHandle: map<nat, Index>, ofFleet: map<int, Index>, ofSerial: map<nat, Index>)

  // Record i is empty, or owns a live handle, and its handle, fleet and serial lead back to it.
  ghost predicate Owned(r: Record, i: Index, live: map<nat, Object>, serial: nat, p: Places) {
    if r.handle == 0 then r == EMPTY else
      && r.handle in live && r.fleet != 0 && r.started > 0 && 1 <= r.serial <= serial
      && r.handle in p.ofHandle && p.ofHandle[r.handle] == i
      && r.fleet in p.ofFleet && p.ofFleet[r.fleet] == i
      && r.serial in p.ofSerial && p.ofSerial[r.serial] == i
  }

  ghost predicate HasRecord(h: nat, rs: Slots, p: Places) {
    h in p.ofHandle && rs[p.ofHandle[h]].handle == h
  }

  // The table owns exactly the live handles, one for each non-empty record, and handles, fleets
  // and serials of non-empty records are distinct, since each leads back to its record.
  ghost predicate Owns(rs: Slots, live: map<nat, Object>, serial: nat, p: Places) {
    && 0 !in live && (forall i: Index :: Owned(rs[i], i, live, serial, p))
    && forall h :: h in live ==> HasRecord(h, rs, p)
  }

  ghost predicate Granted(r: Record, live: map<nat, Object>, grants: map<int, Grant>) {
    Alive(r, live) ==>
      r.fleet in grants && grants[r.fleet] == Grant(r.serial, live[r.handle], r.target, r.attempt, r.started)
  }

  ghost predicate HasLiveRecord(fleet: int, rs: Slots, live: map<nat, Object>, p: Places) {
    fleet in p.ofFleet && Alive(rs[p.ofFleet[fleet]], live) && rs[p.ofFleet[fleet]].fleet == fleet
  }

  // The records whose queues are still alive are the grants.
  ghost predicate Grants(rs: Slots, live: map<nat, Object>, grants: map<int, Grant>, p: Places) {
    (forall i: Index :: Granted(rs[i], live, grants)) && forall f :: f in grants ==> HasLiveRecord(f, rs, live, p)
  }

  ghost predicate Tracks(rs: Slots, live: map<nat, Object>, serial: nat, l: Ledger, p: Places) {
    Owns(rs, live, serial, p) && Grants(rs, live, l.grants, p) && serial == l.serial
  }

  // So a fleet, a serial or a handle names at most one request.
  lemma RequestsAreDistinct(rs: Slots, live: map<nat, Object>, serial: nat, p: Places, i: Index, j: Index)
    requires Owns(rs, live, serial, p) && rs[i].handle != 0 && rs[j].handle != 0
    requires rs[i].fleet == rs[j].fleet || rs[i].serial == rs[j].serial || rs[i].handle == rs[j].handle
    ensures i == j
  {
  }

  lemma OwnRecord(rs: Slots, live: map<nat, Object>, serial: nat, p: Places, i: Index)
    requires Owns(rs, live, serial, p)
    ensures forall j: Index :: j != i && rs[j].handle != 0 ==> rs[j].fleet != rs[i].fleet
  {
  }

  // An empty record counts as older than any request.
  lemma NoneEmpty(rs: Slots, live: map<nat, Object>, serial: nat, p: Places, i: Index)
    requires Owns(rs, live, serial, p)
    ensures rs[i].handle != 0 && (forall j: Index :: rs[i].started <= rs[j].started) ==> forall j: Index :: rs[j].handle != 0
  {
  }

  function LiveWithout(live: map<nat, Object>, h: nat): map<nat, Object> {
    if h == 0 then live else live - {h}
  }

  function GrantsWithout(grants: map<int, Grant>, r: Record): map<int, Grant> {
    if r.handle == 0 then grants else Without(grants, r.serial)
  }

  function Emptied(rs: Slots, i: Index): Slots {
    rs[i := EMPTY]
  }

  lemma ReleaseTracks(rs: Slots, live: map<nat, Object>, serial: nat, l: Ledger, p: Places, i: Index)
    requires Tracks(rs, live, serial, l, p)
    ensures Tracks(Emptied(rs, i), LiveWithout(live, rs[i].handle), serial,
                   l.(grants := GrantsWithout(l.grants, rs[i])), p)
  {
  }

  lemma SerialAbsent(rs: Slots, live: map<nat, Object>, serial: nat, l: Ledger, p: Places, absent: nat)
    requires Tracks(rs, live, serial, l, p)
    requires forall i: Index :: Alive(rs[i], live) ==> rs[i].serial != absent
    ensures Without(l.grants, absent) == l.grants
  {
    forall f | f in l.grants ensures l.grants[f].serial != absent {
      assert l.grants[f].serial == rs[p.ofFleet[f]].serial;
    }
  }

  // Releasing the record of a fleet takes that fleet's grant, if it has one, and no other.
  lemma ReleaseOfFleet(rs: Slots, live: map<nat, Object>, serial: nat, l: Ledger, p: Places, i: Index)
    requires Tracks(rs, live, serial, l, p) && rs[i].handle != 0
    ensures Without(l.grants, rs[i].serial) == l.grants - {rs[i].fleet}
    ensures rs[i].fleet in l.grants <==> Alive(rs[i], live)
  {
    forall f | f in l.grants ensures l.grants[f].serial == rs[i].serial <==> f == rs[i].fleet {
      var j := p.ofFleet[f];
      assert Alive(rs[j], live) && rs[j].fleet == f && l.grants[f].serial == rs[j].serial;
    }
  }

  lemma NoRecordOfFleet(rs: Slots, live: map<nat, Object>, serial: nat, l: Ledger, p: Places, fleet: int)
    requires Tracks(rs, live, serial, l, p) && forall j: Index :: Alive(rs[j], live) ==> rs[j].fleet != fleet
    ensures fleet !in l.grants
  {
  }

  lemma InsertTracks(rs: Slots, live: map<nat, Object>, serial: nat, l: Ledger, p: Places, i: Index,
                     r: Record, queue: Object) returns (p': Places)
    requires Tracks(rs, live, serial, l, p) && rs[i] == EMPTY
    requires r.handle != 0 && r.handle !in live && queue != 0 && r.fleet != 0 && r.started > 0 && r.serial == serial + 1
    requires forall j: Index :: rs[j].handle != 0 ==> rs[j].fleet != r.fleet
    ensures Tracks(rs[i := r], live[r.handle := queue], serial + 1,
                   Ledger(l.grants[r.fleet := Grant(r.serial, queue, r.target, r.attempt, r.started)], serial + 1), p')
  {
    p' := Places(p.ofHandle[r.handle := i], p.ofFleet[r.fleet := i], p.ofSerial[r.serial := i]);
  }

  ghost function Fleets(rs: Slots, n: nat): set<int>
    requires n <= CAPACITY
  {
    if n == 0 then {} else Fleets(rs, n - 1) + {rs[n - 1].fleet}
  }

  lemma {:induction false} FleetsOfRecords(rs: Slots, n: nat)
    requires n <= CAPACITY && forall i: Index, j: Index :: i != j ==> rs[i].fleet != rs[j].fleet
    ensures |Fleets(rs, n)| == n
  {
    if n > 0 {
      FleetsOfRecords(rs, n - 1);
      if rs[n - 1].fleet in Fleets(rs, n - 1) {
        var i := RecordOfFleet(rs, n - 1, rs[n - 1].fleet);
        assert false;
      }
    }
  }

  lemma {:induction false} RecordOfFleet(rs: Slots, n: nat, fleet: int) returns (i: Index)
    requires n <= CAPACITY && fleet in Fleets(rs, n)
    ensures i < n && rs[i].fleet == fleet
  {
    i := n - 1;
    if rs[n - 1].fleet != fleet {
      i := RecordOfFleet(rs, n - 1, fleet);
    }
  }

  lemma {:induction false} FleetOfRecord(rs: Slots, n: nat, i: Index)
    requires i < n <= CAPACITY
    ensures rs[i].fleet in Fleets(rs, n)
  {
    if i < n - 1 {
      FleetOfRecord(rs, n - 1, i);
    }
  }

  lemma FleetOfGrant(rs: Slots, live: map<nat, Object>, serial: nat, l: Ledger, p: Places, fleet: int)
    requires Tracks(rs, live, serial, l, p) && forall i: Index :: Alive(rs[i], live)
    ensures fleet in l.grants <==> fleet in Fleets(rs, CAPACITY)
  {
    if fleet in l.grants {
      var i := p.ofFleet[fleet];
      assert rs[i].fleet == fleet;
      FleetOfRecord(rs, CAPACITY, i);
    }
    if fleet in Fleets(rs, CAPACITY) {
      var i := RecordOfFleet(rs, CAPACITY, fleet);
      assert Alive(rs[i], live);
    }
  }

  lemma LiveFleetsDiffer(rs: Slots, live: map<nat, Object>, serial: nat, l: Ledger, p: Places, i: Index, j: Index)
    requires Tracks(rs, live, serial, l, p) && Alive(rs[i], live) && Alive(rs[j], live) && i != j
    ensures rs[i].fleet != rs[j].fleet
  {
    if rs[i].fleet == rs[j].fleet {
      RequestsAreDistinct(rs, live, serial, p, i, j);
    }
  }

  // With eight live records there are eight grants.
  lemma FullTable(rs: Slots, live: map<nat, Object>, serial: nat, l: Ledger, p: Places)
    requires Tracks(rs, live, serial, l, p) && forall i: Index :: Alive(rs[i], live)
    ensures |l.grants| == CAPACITY
  {
    assert |Fleets(rs, CAPACITY)| == CAPACITY by {
      forall i: Index, j: Index | i != j ensures rs[i].fleet != rs[j].fleet {
        LiveFleetsDiffer(rs, live, serial, l, p, i, j);
      }
      FleetsOfRecords(rs, CAPACITY);
    }
    assert l.grants.Keys == Fleets(rs, CAPACITY) by {
      forall f ensures f in l.grants <==> f in Fleets(rs, CAPACITY) {
        FleetOfGrant(rs, live, serial, l, p, f);
      }
    }
  }

  // The oldest record holds the oldest grant.
  lemma OldestRecord(rs: Slots, live: map<nat, Object>, serial: nat, l: Ledger, p: Places, i: Index, at: int)
    requires Tracks(rs, live, serial, l, p) && Alive(rs[i], live)
    requires forall j: Index :: rs[i].started <= rs[j].started && at - rs[j].started < LIFETIME_S
    ensures Oldest(l.grants, rs[i].fleet) && l.grants[rs[i].fleet].serial == rs[i].serial
    ensures forall f :: f in l.grants ==> Fresh(l.grants[f], at)
  {
    forall f | f in l.grants ensures l.grants[rs[i].fleet].started <= l.grants[f].started && Fresh(l.grants[f], at) {
      var j := p.ofFleet[f];
      assert Alive(rs[j], live) && l.grants[f].started == rs[j].started;
    }
  }

  lemma CollectionTracks(rs: Slots, live: map<nat, Object>, serial: nat, l: Ledger, p: Places, queue: Object)
    requires Tracks(rs, live, serial, l, p) && queue != 0
    ensures Tracks(rs, AfterCollection(live, queue), serial, Step(l, Collected(queue)), p)
  {
    forall f | f in l.grants ensures l.grants[f].queue == live[rs[p.ofFleet[f]].handle] {
      assert Alive(rs[p.ofFleet[f]], live);
    }
  }

  // A fleet's grant is what its record says.
  lemma GrantOfRecord(rs: Slots, live: map<nat, Object>, serial: nat, l: Ledger, p: Places, i: Index)
    requires Tracks(rs, live, serial, l, p)
    ensures rs[i].handle != 0 ==> (rs[i].fleet in l.grants <==> Alive(rs[i], live))
    ensures 0 !in l.grants
  {
    if rs[i].handle != 0 {
      ReleaseOfFleet(rs, live, serial, l, p, i);
    }
  }

  // Whether storing a request for fleet over record r pushes out another fleet's.
  predicate Evicts(r: Record, fleet: int) {
    r.handle != 0 && r.fleet != fleet
  }

  // Every record holds a live, unexpired request, and record i the oldest of them.
  predicate AllYoung(rs: Slots, live: map<nat, Object>, i: Index, now: int) {
    forall j: Index :: Alive(rs[j], live) && now - rs[j].started < LIFETIME_S && rs[i].started <= rs[j].started
  }

  // No room for fleet: eight young grants of others, the given one the oldest of them.
  ghost predicate FullOfYoung(grants: map<int, Grant>, oldest: int, fleet: int, now: int) {
    && |grants| == CAPACITY && Oldest(grants, oldest) && fleet !in grants
    && forall f :: f in grants ==> Fresh(grants[f], now)
  }

  // Emptying the chosen record leaves the grants of every fleet but the new request's and,
  // when the table is full of live unexpired requests of others, but the oldest one.
  lemma MakeRoomTracks(rs: Slots, live: map<nat, Object>, serial: nat, l: Ledger, p: Places, i: Index, fleet: int, now: int)
    returns (kept: map<int, Grant>, rest: map<int, Grant>)
    requires Tracks(rs, live, serial, l, p)
    requires forall j: Index :: j != i && rs[j].handle != 0 ==> rs[j].fleet != fleet
    requires Evicts(rs[i], fleet) ==> AllYoung(rs, live, i, now)
    ensures kept == if Evicts(rs[i], fleet) then Without(l.grants, rs[i].serial) else l.grants
    ensures kept == if Evicts(rs[i], fleet) then l.grants - {rs[i].fleet} else l.grants
    ensures Tracks(Emptied(rs, i), LiveWithout(live, rs[i].handle), serial, Ledger(rest, serial), p) && rest == kept - {fleet}
    ensures Evicts(rs[i], fleet) ==>
              FullOfYoung(l.grants, rs[i].fleet, fleet, now) && l.grants[rs[i].fleet].serial == rs[i].serial
  {
    if Evicts(rs[i], fleet) {
      kept := RoomEvicted(rs, live, serial, l, p, i, fleet, now);
      rest := kept;
      assert kept - {fleet} == kept;
    } else {
      kept := l.grants;
      rest := kept - {fleet};
      RoomKept(rs, live, serial, l, p, i, fleet);
    }
  }

  lemma RoomEvicted(rs: Slots, live: map<nat, Object>, serial: nat, l: Ledger, p: Places, i: Index, fleet: int, now: int)
    returns (kept: map<int, Grant>)
    requires Tracks(rs, live, serial, l, p) && Evicts(rs[i], fleet) && AllYoung(rs, live, i, now)
    requires forall j: Index :: j != i && rs[j].handle != 0 ==> rs[j].fleet != fleet
    ensures kept == Without(l.grants, rs[i].serial) == l.grants - {rs[i].fleet} && fleet !in kept
    ensures Tracks(Emptied(rs, i), LiveWithout(live, rs[i].handle), serial, l.(grants := kept), p)
    ensures FullOfYoung(l.grants, rs[i].fleet, fleet, now) && l.grants[rs[i].fleet].serial == rs[i].serial
  {
    kept := Without(l.grants, rs[i].serial);
    ReleaseTracks(rs, live, serial, l, p, i);
    EvictedGrant(rs, live, serial, l, p, i, fleet);
    EvictedIsOldest(rs, live, serial, l, p, i, fleet, now);
  }

  lemma EvictedGrant(rs: Slots, live: map<nat, Object>, serial: nat, l: Ledger, p: Places, i: Index, fleet: int)
    requires Tracks(rs, live, serial, l, p) && Evicts(rs[i], fleet)
    requires forall j: Index :: j != i && rs[j].handle != 0 ==> rs[j].fleet != fleet
    ensures Without(l.grants, rs[i].serial) == l.grants - {rs[i].fleet} && fleet !in l.grants
  {
    ReleaseOfFleet(rs, live, serial, l, p, i);
    NoRecordOfFleet(rs, live, serial, l, p, fleet);
  }

  lemma EvictedIsOldest(rs: Slots, live: map<nat, Object>, serial: nat, l: Ledger, p: Places, i: Index, fleet: int, now: int)
    requires Tracks(rs, live, serial, l, p) && AllYoung(rs, live, i, now) && fleet !in l.grants
    ensures FullOfYoung(l.grants, rs[i].fleet, fleet, now) && l.grants[rs[i].fleet].serial == rs[i].serial
  {
    FullTable(rs, live, serial, l, p);
    OldestRecord(rs, live, serial, l, p, i, now);
  }

  // The record is empty or the fleet's own.
  lemma RoomKept(rs: Slots, live: map<nat, Object>, serial: nat, l: Ledger, p: Places, i: Index, fleet: int)
    requires Tracks(rs, live, serial, l, p) && !Evicts(rs[i], fleet)
    requires forall j: Index :: j != i && rs[j].handle != 0 ==> rs[j].fleet != fleet
    ensures Tracks(Emptied(rs, i), LiveWithout(live, rs[i].handle), serial, l.(grants := l.grants - {fleet}), p)
  {
    ReleaseTracks(rs, live, serial, l, p, i);
    if rs[i].handle != 0 {
      ReleaseOfFleet(rs, live, serial, l, p, i);
    } else {
      NoRecordOfFleet(rs, live, serial, l, p, fleet);
      assert l.grants - {fleet} == l.grants;
    }
  }

  // Between two states of the grants only ones past their lifetime were lost.
  ghost predicate OnlyStaleLost(grants: map<int, Grant>, grants': map<int, Grant>, now: int) {
    && (forall f :: f in grants' ==> f in grants && grants'[f] == grants[f])
    && (forall f :: f in grants && f !in grants' ==> !Fresh(grants[f], now))
  }

  ghost predicate KeepsOthers(grants: map<int, Grant>, grants': map<int, Grant>, fleet: int) {
    forall f :: f in grants && f != fleet ==> f in grants'
  }

  // The grant of another fleet that is gone was old, or the oldest of eight young ones.
  ghost predicate Pushed(f: int, grants: map<int, Grant>, grants': map<int, Grant>, fleet: int, now: int)
    requires f in grants
  {
    Fresh(grants[f], now) ==> FullOfYoung(grants, f, fleet, now) && forall g :: g in grants && g != f ==> g in grants'
  }

  // What Remember does to the grants: the fleet of the state gets the new one if the state is
  // usable and loses its old one in any case; another fleet keeps its grant unless that grant
  // was past its lifetime, or eight young ones filled the table and it was the oldest.
  ghost predicate Remembering(grants: map<int, Grant>, grants': map<int, Grant>, serial: nat, queue: Object,
                              state: QueueState, now: int) {
    && (state.fleet in grants' <==> Usable(state))
    && (Usable(state) ==> grants'[state.fleet] == Grant(serial, queue, state.front, state.attempt, now))
    && (forall f :: f in grants' && f != state.fleet ==> f in grants && grants'[f] == grants[f])
    && (forall f :: f in grants && f != state.fleet && f !in grants' ==> Pushed(f, grants, grants', state.fleet, now))
  }

  lemma RememberingOutcome(grants: map<int, Grant>, evicts: bool, oldest: int, serial: nat, queue: Object,
                           state: QueueState, now: int)
    requires evicts ==> oldest != state.fleet && FullOfYoung(grants, oldest, state.fleet, now)
    ensures var kept := if evicts then grants - {oldest} else grants;
            var grants' := Step(Ledger(kept, 0), Remembered(serial, queue, state, now)).grants;
            && Remembering(grants, grants', serial, queue, state, now)
            && (!evicts ==> KeepsOthers(grants, grants', state.fleet))
  {
  }

  // Sweeping first, then storing. Storing evicts only if the sweep released nothing.
  lemma RememberingAfterSweep(grants: map<int, Grant>, swept: map<int, Grant>, grants': map<int, Grant>, evicts: bool,
                              serial: nat, queue: Object, state: QueueState, now: int)
    requires OnlyStaleLost(grants, swept, now) && Remembering(swept, grants', serial, queue, state, now)
    requires if evicts then swept == grants else KeepsOthers(swept, grants', state.fleet)
    ensures Remembering(grants, grants', serial, queue, state, now)
  {
  }

  // Whether a failure response is the one the fleet's grant waits for.
  predicate Matches(grants: map<int, Grant>, queue: Object, state: QueueState, target: int, now: int) {
    && state.fleet in grants && Fresh(grants[state.fleet], now)
    && grants[state.fleet].queue == queue && grants[state.fleet].target == target
    && grants[state.fleet].attempt == state.attempt
  }

  class Requests {
    const records: array<Record>
    const handles: WeakHandles
    var serial: nat
    ghost var log: seq<Event>
    ghost var run: seq<Ledger>
    ghost var places: Places

    ghost function Current(): Ledger
      requires |run| > 0
      reads this
    {
      run[|run| - 1]
    }

    ghost predicate Valid()
      reads this, records, handles
    {
      && records.Length == CAPACITY && handles.Valid() && Accepts(log, run)
      && Tracks(records[..], handles.live, serial, Current(), places)
    }

    constructor ()
      ensures Valid() && fresh(records) && fresh(handles) && log == []
    {
      records := new Record[CAPACITY](_ => EMPTY);
      handles := new WeakHandles();
      serial, log, run, places := 0, [], [OPENING], Places(map[], map[], map[]);
    }

    ghost method Emit(e: Event)
      requires Accepts(log, run) && Allowed(Current(), e)
      modifies this`log, this`run
      ensures Accepts(log, run) && log == old(log) + [e] && Current() == Step(old(Current()), e)
    {
      run := run + [Step(Current(), e)];
      log := log + [e];
    }

    method Release(i: Index)
      requires records.Length == CAPACITY && handles.Valid() && (records[i].handle != 0 ==> records[i].handle in handles.live)
      modifies records, handles
      ensures handles.Valid() && records[..] == Emptied(old(records[..]), i)
      ensures handles.live == LiveWithout(old(handles.live), old(records[i]).handle)
    {
      if records[i].handle != 0 {
        handles.Free(records[i].handle);
      }
      records[i] := EMPTY;
      assert records[..] == old(records[..])[i := EMPTY];
    }

    method Clear()
      requires Valid()
      modifies this, records, handles
      ensures Valid() && log == old(log) + [Cleared] && serial == old(serial)
      ensures handles.live == map[] && Current().grants == map[]
    {
      ghost var l := Current();
      for i := 0 to CAPACITY
        invariant records.Length == CAPACITY && handles.Valid() && Accepts(log, run)
        invariant serial == old(serial) && log == old(log) && Current() == old(Current())
        invariant l.serial == Current().serial && Tracks(records[..], handles.live, serial, l, places)
        invariant forall j: Index :: j < i ==> records[j] == EMPTY
      {
        ReleaseTracks(records[..], handles.live, serial, l, places, i);
        l := l.(grants := GrantsWithout(l.grants, records[i]));
        Release(i);
      }
      Emit(Cleared);
    }

    // A native attempt that did not dispatch must not authorize a later failure response.
    method Cancel(cancelled: nat)
      requires Valid()
      modifies this, records, handles
      ensures Valid() && log == old(log) + [Cancelled(cancelled)] && serial == old(serial)
      ensures Current().grants == Without(old(Current()).grants, cancelled)
    {
      ghost var l := Current();
      for i := 0 to CAPACITY
        invariant records.Length == CAPACITY && handles.Valid() && Accepts(log, run)
        invariant serial == old(serial) && log == old(log) && Current() == old(Current())
        invariant l.serial == Current().serial && Tracks(records[..], handles.live, serial, l, places)
        invariant l == Current() || l.grants == Without(Current().grants, cancelled)
        invariant forall j: Index :: j < i && records[j].handle != 0 ==> records[j].serial != cancelled
      {
        if records[i].serial == cancelled {
          ReleaseTracks(records[..], handles.live, serial, l, places, i);
          l := l.(grants := GrantsWithout(l.grants, records[i]));
          Release(i);
        }
      }
      SerialAbsent(records[..], handles.live, serial, l, places, cancelled);
      Emit(Cancelled(cancelled));
    }

    // A record found expired, or dead, on the way.
    method ReleaseStale(i: Index, now: Instant)
      requires Valid() && records[i].handle != 0
      requires now - records[i].started >= LIFETIME_S || handles.Get(records[i].handle) == 0
      modifies this, records, handles
      ensures Valid() && records[..] == old(records[..])[i := EMPTY] && serial == old(serial)
      ensures handles.live == LiveWithout(old(handles.live), old(records[i]).handle)
      ensures log == old(log) + if old(Alive(records[i], handles.live)) then [Expired(old(records[i]).serial, now)] else []
      ensures Current().grants == old(Current()).grants - {old(records[i]).fleet}
      ensures old(records[i]).fleet in old(Current()).grants ==> !Fresh(old(Current()).grants[old(records[i]).fleet], now)
    {
      ghost var r, alive := records[i], Alive(records[i], handles.live);
      ReleaseTracks(records[..], handles.live, serial, Current(), places, i);
      ReleaseOfFleet(records[..], handles.live, serial, Current(), places, i);
      Release(i);
      if alive {
        Emit(Expired(r.serial, now));
      } else {
        assert Current().grants - {r.fleet} == Current().grants;
      }
    }

    // Empties record i, the chosen one, whatever it holds.
    method MakeRoom(i: Index, fleet: int, now: Instant) returns (ghost kept: map<int, Grant>, ghost rest: map<int, Grant>)
      requires Valid() && (forall j: Index :: j != i && records[j].handle != 0 ==> records[j].fleet != fleet)
      requires Evicts(records[i], fleet) ==> AllYoung(records[..], handles.live, i, now)
      modifies this`log, this`run, records, handles
      ensures records[..] == Emptied(old(records[..]), i) && handles.Valid() && Accepts(log, run)
      ensures Tracks(records[..], handles.live, serial, Ledger(rest, serial), places) && rest == kept - {fleet}
      ensures Current() == Ledger(kept, serial)
      ensures kept == if old(Evicts(records[i], fleet)) then old(Current()).grants - {old(records[i]).fleet}
                      else old(Current()).grants
      ensures old(log) <= log
      ensures old(Evicts(records[i], fleet)) ==> FullOfYoung(old(Current()).grants, old(records[i]).fleet, fleet, now)
    {
      ghost var r := records[i];
      kept, rest := MakeRoomTracks(records[..], handles.live, serial, Current(), places, i, fleet, now);
      Release(i);
      if Evicts(r, fleet) {
        Emit(Evicted(r.serial, now));
      }
    }

    // Puts a new request, if it is usable, in the place of record i.
    method Replace(i: Index, queue: Object, state: QueueState, now: Instant) returns (ghost evicts: bool)
      requires Valid() && (state.valid ==> queue != 0 && state.fleet != 0)
      requires forall j: Index :: j != i && records[j].handle != 0 ==> records[j].fleet != state.fleet
      requires Evicts(records[i], state.fleet) ==> AllYoung(records[..], handles.live, i, now)
      modifies this, records, handles
      ensures Valid() && serial == old(serial) + 1
      ensures evicts == old(Evicts(records[i], state.fleet))
      ensures Remembering(old(Current()).grants, Current().grants, serial, queue, state, now)
      ensures !evicts ==> KeepsOthers(old(Current()).grants, Current().grants, state.fleet)
      ensures old(log) <= log && |log| > |old(log)| && log[|log| - 1] == Remembered(serial, queue, state, now)
    {
      ghost var grants, oldest := Current().grants, records[i].fleet;
      evicts := Evicts(records[i], state.fleet);
      ghost var kept, rest := MakeRoom(i, state.fleet, now);
      Store(i, queue, state, now, rest);
      Emit(Remembered(serial, queue, state, now));
      RememberingOutcome(grants, evicts, oldest, serial, queue, state, now);
    }

    // Takes the next serial, and fills record i, which is empty, if the request is usable.
    method Store(i: Index, queue: Object, state: QueueState, now: Instant, ghost rest: map<int, Grant>)
      requires records.Length == CAPACITY && handles.Valid() && records[i] == EMPTY
      requires Tracks(records[..], handles.live, serial, Ledger(rest, serial), places)
      requires state.valid ==> queue != 0 && state.fleet != 0
      requires forall j: Index :: records[j].handle != 0 ==> records[j].fleet != state.fleet
      modifies this`serial, this`places, records, handles
      ensures handles.Valid() && serial == old(serial) + 1
      ensures Tracks(records[..], handles.live, serial, Ledger(
                if Usable(state) then rest[state.fleet := Grant(serial, queue, state.front, state.attempt, now)] else rest,
                serial), places)
    {
      serial := serial + 1;
      if Usable(state) {
        ghost var rs, live := records[..], handles.live;
        var handle := handles.New(queue);
        var r := Record(handle, state.fleet, state.front, state.attempt, now, serial);
        places := InsertTracks(rs, live, serial - 1, Ledger(rest, serial - 1), places, i, r, queue);
        records[i] := r;
        assert records[..] == rs[i := r];
      }
    }

    // What a pass of Remember over the first n records has left, slot being the oldest of them.
    ghost predicate Swept(n: int, slot: Index, fleet: int, now: int)
      requires records.Length == CAPACITY
      reads this, records, handles
    {
      forall j: Index :: j < n ==>
        && records[j].fleet != fleet && records[slot].started <= records[j].started
        && (records[j].handle != 0 ==> Alive(records[j], handles.live) && now - records[j].started < LIFETIME_S)
    }

    // One record of that pass; slot' is the record itself when it is the fleet's own.
    method SweepRecord(i: Index, slot: Index, fleet: int, now: Instant) returns (slot': Index, own: bool)
      requires Valid() && Swept(i, slot, fleet, now) && (slot < i || slot == 0)
      modifies this, records, handles
      ensures Valid() && serial == old(serial)
      ensures own ==> slot' == i && records[i].fleet == fleet
      ensures !own ==> Swept(i + 1, slot', fleet, now) && slot' <= i
      ensures forall j: Index :: j != i ==> records[j] == old(records[j])
      ensures records[i].handle != 0 ==> Current() == old(Current())
      ensures OnlyStaleLost(old(Current()).grants, Current().grants, now) && old(log) <= log
    {
      if records[i].handle != 0 && (now - records[i].started >= LIFETIME_S || handles.Get(records[i].handle) == 0) {
        ReleaseStale(i, now);
      }
      slot', own := slot, records[i].fleet == fleet;
      if own || records[i].started < records[slot].started {
        slot' := i;
      }
    }

    // Chooses the record for a new request: the fleet's own, or the oldest, an empty one
    // counting as oldest. Stale records met on the way are released.
    method ChooseSlot(fleet: int, now: Instant) returns (slot: Index)
      requires Valid()
      modifies this, records, handles
      ensures Valid() && serial == old(serial)
      ensures forall j: Index :: j != slot && records[j].handle != 0 ==> records[j].fleet != fleet
      ensures Evicts(records[slot], fleet) ==> AllYoung(records[..], handles.live, slot, now)
      ensures Evicts(records[slot], fleet) ==> Current() == old(Current())
      ensures OnlyStaleLost(old(Current()).grants, Current().grants, now) && old(log) <= log
    {
      slot := 0;
      var own := false;
      for i := 0 to CAPACITY
        invariant (slot < i || slot == 0) && !own && old(log) <= log
        invariant Valid() && serial == old(serial) && Swept(i, slot, fleet, now)
        invariant (forall j: Index :: j < i ==> records[j].handle != 0) ==> Current() == old(Current())
        invariant OnlyStaleLost(old(Current()).grants, Current().grants, now)
      {
        slot, own := SweepRecord(i, slot, fleet, now);
        if own {
          OwnRecord(records[..], handles.live, serial, places, slot);
          break;
        }
      }
      if !own {
        NoneEmpty(records[..], handles.live, serial, places, slot);
      }
    }

    method Remember(queue: Object, state: QueueState, now: Instant) returns (result: nat)
      requires Valid() && (state.valid ==> queue != 0 && state.fleet != 0)
      modifies this, records, handles
      ensures Valid() && result == serial == old(serial) + 1
      ensures Remembering(old(Current()).grants, Current().grants, result, queue, state, now)
      ensures old(log) <= log && |log| > |old(log)| && log[|log| - 1] == Remembered(result, queue, state, now)
    {
      ghost var grants := Current().grants;
      var slot := ChooseSlot(state.fleet, now);
      ghost var swept := Current().grants;
      ghost var evicts := Replace(slot, queue, state, now);
      RememberingAfterSweep(grants, swept, Current().grants, evicts, serial, queue, state, now);
      result := serial;
    }

    method Consume(queue: Object, state: QueueState, target: int, now: Instant) returns (ok: bool)
      requires Valid() && queue != 0
      modifies this, records, handles
      ensures Valid() && serial == old(serial)
      ensures ok <==> Matches(old(Current()).grants, queue, state, target, now)
      ensures ok ==>
        && log == old(log) + [Consumed(old(Current()).grants[state.fleet].serial, queue, state.fleet, target, state.attempt, now)]
        && Current().grants == old(Current()).grants - {state.fleet}
      ensures !ok ==> OnlyStaleLost(old(Current()).grants, Current().grants, now) && old(log) <= log
    {
      for i := 0 to CAPACITY
        invariant Valid() && Current() == old(Current()) && log == old(log) && serial == old(serial)
        invariant forall j: Index :: j < i ==> records[j].fleet != state.fleet
      {
        if records[i].fleet != state.fleet {
          continue;
        }
        ok := ConsumeRecord(i, queue, state, target, now);
        return;
      }
      NoRecordOfFleet(records[..], handles.live, serial, Current(), places, state.fleet);
      return false;
    }

    // Consume, once the fleet's record is found.
    method ConsumeRecord(i: Index, queue: Object, state: QueueState, target: int, now: Instant) returns (ok: bool)
      requires Valid() && queue != 0 && records[i].fleet == state.fleet
      modifies this, records, handles
      ensures Valid() && serial == old(serial)
      ensures ok <==> Matches(old(Current()).grants, queue, state, target, now)
      ensures ok ==>
        && log == old(log) + [Consumed(old(Current()).grants[state.fleet].serial, queue, state.fleet, target, state.attempt, now)]
        && Current().grants == old(Current()).grants - {state.fleet}
      ensures !ok ==> OnlyStaleLost(old(Current()).grants, Current().grants, now) && old(log) <= log
    {
      GrantOfRecord(records[..], handles.live, serial, Current(), places, i);
      if records[i].handle == 0 {
        assert records[..][i := EMPTY] == records[..];
        Release(i);
        return false;
      }
      if now - records[i].started >= LIFETIME_S || handles.Get(records[i].handle) == 0 {
        ReleaseStale(i, now);
        return false;
      }
      if handles.Get(records[i].handle) != queue || records[i].target != target || records[i].attempt != state.attempt {
        return false;
      }
      ReleaseTracks(records[..], handles.live, serial, Current(), places, i);
      ReleaseOfFleet(records[..], handles.live, serial, Current(), places, i);
      ghost var r := records[i];
      Release(i);
      Emit(Consumed(r.serial, queue, state.fleet, target, state.attempt, now));
      return true;
    }

    // The runtime collects a queue that nothing keeps alive.
    method CollectQueue(queue: Object)
      requires Valid() && queue != 0
      modifies this`log, this`run, handles
      ensures Valid() && log == old(log) + [Collected(queue)] && Current() == Step(old(Current()), Collected(queue))
    {
      CollectionTracks(records[..], handles.live, serial, Current(), places, queue);
      handles.Collect(queue);
      Emit(Collected(queue));
    }
  }
}
