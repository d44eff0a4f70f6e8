// The per-frame key cache of key.cc. The input of a frame is a fixed snapshot; the queries see
// it through the cache.
module KeyCache {
  import opened KeyNames

  // What the engine reports during one frame.
  datatype Snapshot = Snapshot(pressed: set<KeyCode>, down: set<KeyCode>)

  const DIRECTIONS: seq<KeyCode> := [LEFT_ARROW, RIGHT_ARROW, UP_ARROW, DOWN_ARROW]
  const MODIFIERS: seq<KeyCode> := [LEFT_ALT, LEFT_CONTROL, LEFT_SHIFT, RIGHT_ALT, RIGHT_CONTROL, RIGHT_SHIFT,
                                    ALT_GR, LEFT_COMMAND, LEFT_WINDOWS, RIGHT_COMMAND, RIGHT_WINDOWS]

  predicate AnyPressed(keys: seq<KeyCode>, pressed: set<KeyCode>) {
    exists i :: 0 <= i < |keys| && keys[i] in pressed
  }

  // The modifiers are the keys from 303 to 313, the directions those from 273 to 276.
  lemma ModifierHeld(pressed: set<KeyCode>)
    ensures AnyPressed(MODIFIERS, pressed) <==> exists key: KeyCode :: 303 <= key <= 313 && key in pressed
  {
    if key: KeyCode :| 303 <= key <= 313 && key in pressed {
      var place := [5, 2, 4, 1, 3, 0, 9, 7, 8, 10, 6];
      assert MODIFIERS[place[key - 303]] == key;
    }
  }

  lemma DirectionKeys(key: KeyCode)
    ensures key in DIRECTIONS <==> 273 <= key <= 276
  {
    var place := [2, 3, 1, 0];
    if 273 <= key <= 276 {
      assert DIRECTIONS[place[key - 273]] == key;
    }
  }

  // An entry is unknown, or it is right.
  ghost predicate Agrees(cache: seq<int>, keys: set<KeyCode>) {
    forall k :: 0 <= k < |cache| ==> cache[k] == 0 || cache[k] == (if k in keys then 1 else -1)
  }

  // A key was held in every frame observed since a claim.
  ghost predicate HeldSince(world: int -> Snapshot, history: seq<int>, key: KeyCode, since: nat) {
    forall i :: since <= i < |history| ==> key in world(history[i]).pressed
  }

  // Claims are given up only for keys that are not held; the others stay as they are.
  ghost predicate GivenUp(before: map<KeyCode, nat>, after: map<KeyCode, nat>, pressed: set<KeyCode>) {
    && (forall key :: key in after ==> key in before && after[key] == before[key])
    && forall key :: key in before && key !in after ==> key !in pressed
  }

  function Observed(history: seq<int>, cached: int, frame: int): seq<int> {
    if cached == frame then history else history + [frame]
  }

  lemma HeldLonger(world: int -> Snapshot, history: seq<int>, frame: int, key: KeyCode, since: nat)
    requires since <= |history|
    ensures HeldSince(world, history + [frame], key, since)
            <==> HeldSince(world, history, key, since) && key in world(frame).pressed
  {
    var longer := history + [frame];
    assert longer[|history|] == frame;
    if HeldSince(world, longer, key, since) {
      forall i | since <= i < |history|
        ensures key in world(history[i]).pressed
      {
        assert longer[i] == history[i];
      }
    }
  }

  // What the rest of the mod asks of the cache.
  datatype Call =
    | AskPressed(frame: int, key: KeyCode)
    | AskDown(frame: int, key: KeyCode)
    | AskModified(frame: int)
    | Claim(key: KeyCode)
    | AskClaimed(frame: int)
  {
    predicate InRange() {
      this.AskPressed? || this.AskDown? || this.Claim? ==> key < CODE_COUNT
    }
  }

  // The frame for which something was last asked.
  function FrameOf(call: Call, before: int): int {
    if call.Claim? then before else call.frame
  }

  // Whether a claim survives a call: the first question of a frame drops it unless the key is
  // held, and so does every question for claims.
  predicate KeepsClaim(world: int -> Snapshot, call: Call, cached: int, key: KeyCode) {
    call.Claim? || (call.frame == cached && !call.AskClaimed?) || key in world(call.frame).pressed
  }

  ghost predicate Stood(world: int -> Snapshot, history: seq<int>, claims: map<KeyCode, nat>, key: KeyCode) {
    key in claims && HeldSince(world, history, key, claims[key])
  }

  lemma KeptByCall(world: int -> Snapshot, history: seq<int>, cached: int, claims: map<KeyCode, nat>, call: Call,
                   history': seq<int>, claims': map<KeyCode, nat>, key: KeyCode)
    requires key in claims ==> claims[key] <= |history|
    requires history' == if call.Claim? then history else Observed(history, cached, call.frame)
    requires match call
             case Claim(claimed) =>
               if claimed in DIRECTIONS then claims' == claims[claimed := |history|] else claims' == claims
             case AskClaimed(frame) =>
               && GivenUp(claims, claims', world(frame).pressed)
               && (Stood(world, history', claims', key) ==> key in world(frame).pressed)
             case _ => claims' == claims
    requires key in DIRECTIONS
    ensures Stood(world, history', claims', key) <==>
              call == Claim(key) || (Stood(world, history, claims, key) && KeepsClaim(world, call, cached, key))
  {
    if !call.Claim? && key in claims {
      HeldLonger(world, history, call.frame, key, claims[key]);
    }
  }

  class Cache {
    const world: int -> Snapshot
    const cacheKeyPressed: array<int>
    const cacheKeyDown: array<int>
    const claimedInput: array<bool>
    var cacheFrame: int
    var cacheInputModified: int
    ghost var history: seq<int>             // the frames observed so far
    ghost var claims: map<KeyCode, nat>     // how many frames had been observed when a key was claimed

    constructor (world: int -> Snapshot)
      ensures Valid() && this.world == world && cacheFrame == -1 && history == [] && claims == map[]
      ensures fresh(cacheKeyPressed) && fresh(cacheKeyDown) && fresh(claimedInput)
    {
      this.world := world;
      cacheKeyPressed := new int[CODE_COUNT](_ => 0);
      cacheKeyDown := new int[CODE_COUNT](_ => 0);
      claimedInput := new bool[CODE_COUNT](_ => false);
      cacheFrame, cacheInputModified := -1, 0;
      history, claims := [], map[];
    }

    ghost predicate CacheOk()
      reads this, cacheKeyPressed, cacheKeyDown
    {
      && cacheKeyPressed.Length == cacheKeyDown.Length == claimedInput.Length == CODE_COUNT
      && cacheKeyPressed != cacheKeyDown
      && Agrees(cacheKeyPressed[..], world(cacheFrame).pressed)
      && Agrees(cacheKeyDown[..], world(cacheFrame).down)
      && (history != [] ==> history[|history| - 1] == cacheFrame)
    }

    ghost predicate Live(key: KeyCode)
      reads this
    {
      key in claims && HeldSince(world, history, key, claims[key])
    }

    // Exactly the claims are kept whose key was held ever since.
    ghost predicate ClaimsOk()
      reads this, claimedInput
    {
      && claimedInput.Length == CODE_COUNT
      && (forall key :: key in claims ==> claims[key] <= |history|)
      && forall key :: key in DIRECTIONS ==> (claimedInput[key] <==> Live(key))
    }

    ghost predicate ModifiedOk()
      reads this
    {
      cacheInputModified == 0 ||
      cacheInputModified == (if AnyPressed(MODIFIERS, world(cacheFrame).pressed) then 1 else -1)
    }

    ghost predicate Valid()
      reads this, cacheKeyPressed, cacheKeyDown, claimedInput
    {
      CacheOk() && ClaimsOk() && ModifiedOk()
    }

    // Asking for a key during a frame. Only the first question of a frame changes the history.
    method Pressed(frame: int, key: KeyCode) returns (held: bool)
      requires CacheOk() && key < CODE_COUNT && (cacheFrame != frame ==> ClaimsOk())
      modifies this, cacheKeyPressed, cacheKeyDown, claimedInput
      ensures CacheOk() && cacheFrame == frame && claims == old(claims)
      ensures held <==> key in world(frame).pressed
      ensures old(cacheFrame) == frame ==>
                history == old(history) && claimedInput[..] == old(claimedInput[..])
                && cacheInputModified == old(cacheInputModified)
      ensures old(cacheFrame) != frame ==> history == old(history) + [frame] && ClaimsOk() && cacheInputModified == 0
      decreases if cacheFrame != frame then 4 else 1
    {
      EnsureCurrentFrame(frame);
      if cacheKeyPressed[key] == 0 {
        cacheKeyPressed[key] := if key in world(frame).pressed then 1 else -1;
      }
      held := cacheKeyPressed[key] == 1;
    }

    method EnsureCurrentFrame(frame: int)
      requires CacheOk() && (cacheFrame != frame ==> ClaimsOk())
      modifies this, cacheKeyPressed, cacheKeyDown, claimedInput
      ensures CacheOk() && cacheFrame == frame && claims == old(claims)
      ensures old(cacheFrame) == frame ==>
                history == old(history) && claimedInput[..] == old(claimedInput[..])
                && cacheInputModified == old(cacheInputModified)
      ensures old(cacheFrame) != frame ==> history == old(history) + [frame] && ClaimsOk() && cacheInputModified == 0
      decreases if cacheFrame != frame then 3 else 0
    {
      if cacheFrame != frame {
        ResetCache(frame);
      }
    }

    // The frame is stored first, so the questions asked while pruning find it current.
    method ResetCache(frame: int)
      requires CacheOk() && ClaimsOk()
      modifies this, cacheKeyPressed, cacheKeyDown, claimedInput
      ensures CacheOk() && ClaimsOk() && cacheFrame == frame && cacheInputModified == 0
      ensures claims == old(claims) && history == old(history) + [frame]
      decreases 2, 1
    {
      cacheFrame := frame;
      cacheInputModified := 0;
      history := history + [frame];
      for i := 0 to CODE_COUNT
        invariant forall k :: 0 <= k < i ==> cacheKeyDown[k] == 0 && cacheKeyPressed[k] == 0
        invariant claimedInput[..] == old(claimedInput[..]) && cacheInputModified == 0 && cacheFrame == frame
        invariant history == old(history) + [frame] && claims == old(claims)
      {
        cacheKeyDown[i] := 0;
        cacheKeyPressed[i] := 0;
      }
      PruneClaims(frame);
      forall key | key in DIRECTIONS
        ensures claimedInput[key] <==> Live(key)
      {
        if key in claims {
          HeldLonger(world, old(history), frame, key, claims[key]);
        }
      }
    }

    method PruneClaims(frame: int)
      requires CacheOk() && cacheFrame == frame
      modifies this, cacheKeyPressed, cacheKeyDown, claimedInput
      ensures CacheOk() && cacheFrame == frame && cacheInputModified == old(cacheInputModified)
      ensures claims == old(claims) && history == old(history)
      ensures forall j :: 0 <= j < |DIRECTIONS| ==>
                (claimedInput[DIRECTIONS[j]] <==> old(claimedInput[DIRECTIONS[j]]) && DIRECTIONS[j] in world(frame).pressed)
      decreases 2, 0
    {
      for i := 0 to |DIRECTIONS|
        invariant CacheOk() && cacheInputModified == old(cacheInputModified) && cacheFrame == frame
        invariant history == old(history) && claims == old(claims)
        invariant forall j :: 0 <= j < |DIRECTIONS| ==>
                    (claimedInput[DIRECTIONS[j]] <==>
                     old(claimedInput[DIRECTIONS[j]]) && (j < i ==> DIRECTIONS[j] in world(frame).pressed))
      {
        var key := DIRECTIONS[i];
        if claimedInput[key] {
          var held := Pressed(frame, key);
          if !held {
            claimedInput[key] := false;
          }
        }
      }
    }

    method Down(frame: int, key: KeyCode) returns (down: bool)
      requires Valid() && key < CODE_COUNT
      modifies this, cacheKeyPressed, cacheKeyDown, claimedInput
      ensures Valid() && cacheFrame == frame && claims == old(claims)
      ensures down <==> key in world(frame).down
      ensures history == Observed(old(history), old(cacheFrame), frame)
    {
      EnsureCurrentFrame(frame);
      if cacheKeyDown[key] == 0 {
        cacheKeyDown[key] := if key in world(frame).down then 1 else -1;
      }
      down := cacheKeyDown[key] == 1;
    }

    // Whether any modifier is held. The answer is stored as no before the keys are asked for.
    method IsModified(frame: int) returns (modified: bool)
      requires Valid()
      modifies this, cacheKeyPressed, cacheKeyDown, claimedInput
      ensures Valid() && cacheFrame == frame && claims == old(claims)
      ensures modified <==> AnyPressed(MODIFIERS, world(frame).pressed)
      ensures history == Observed(old(history), old(cacheFrame), frame)
    {
      EnsureCurrentFrame(frame);
      if cacheInputModified == 0 {
        cacheInputModified := -1;
        var held := AnyHeld(frame, MODIFIERS);
        if held {
          cacheInputModified := 1;
        }
      }
      modified := cacheInputModified == 1;
    }

    // The keys are asked for in order, up to the first one that is held.
    method AnyHeld(frame: int, keys: seq<KeyCode>) returns (any: bool)
      requires CacheOk() && ClaimsOk() && cacheFrame == frame && forall i :: 0 <= i < |keys| ==> keys[i] < CODE_COUNT
      modifies this, cacheKeyPressed, cacheKeyDown, claimedInput
      ensures CacheOk() && ClaimsOk() && cacheFrame == frame && claims == old(claims) && history == old(history)
      ensures cacheInputModified == old(cacheInputModified)
      ensures any <==> AnyPressed(keys, world(frame).pressed)
    {
      for i := 0 to |keys|
        invariant CacheOk() && ClaimsOk() && cacheFrame == frame && claims == old(claims) && history == old(history)
        invariant cacheInputModified == old(cacheInputModified)
        invariant forall j :: 0 <= j < i ==> keys[j] !in world(frame).pressed
      {
        any := Pressed(frame, keys[i]);
        if any {
          return;
        }
      }
      any := false;
    }

    // A direction is claimed until the first observed frame in which it is not held.
    method ClaimDirectionalInput(key: KeyCode)
      requires Valid() && key < CODE_COUNT
      modifies this`claims, claimedInput
      ensures Valid()
      ensures claims == if key in DIRECTIONS then old(claims)[key := |history|] else old(claims)
    {
      if key in DIRECTIONS {
        claimedInput[key] := true;
        claims := claims[key := |history|];
      }
    }

    // Whether a claimed direction is held. Claims of keys that are not held are given up.
    method IsDirectionalInputClaimed(frame: int) returns (claimed: bool)
      requires Valid()
      modifies this, cacheKeyPressed, cacheKeyDown, claimedInput
      ensures Valid() && cacheFrame == frame
      ensures history == Observed(old(history), old(cacheFrame), frame)
      ensures claimed <==> exists key :: key in DIRECTIONS && Live(key)
      ensures forall key :: key in DIRECTIONS && Live(key) ==> key in world(frame).pressed
      ensures GivenUp(old(claims), claims, world(frame).pressed)
    {
      EnsureCurrentFrame(frame);
      claimed := AnyClaimed(frame, DIRECTIONS);
    }

    // One call from outside.
    method Do(call: Call) returns (answer: bool)
      requires Valid() && call.InRange()
      modifies this, cacheKeyPressed, cacheKeyDown, claimedInput
      ensures Valid() && cacheFrame == FrameOf(call, old(cacheFrame))
      ensures forall key :: key in DIRECTIONS ==>
                (Live(key) <==> call == Claim(key) || (old(Live(key)) && KeepsClaim(world, call, old(cacheFrame), key)))
      ensures answer <==>
                match call
                case AskPressed(frame, key) => key in world(frame).pressed
                case AskDown(frame, key) => key in world(frame).down
                case AskModified(frame) => AnyPressed(MODIFIERS, world(frame).pressed)
                case Claim(_) => false
                case AskClaimed(_) => exists key :: key in DIRECTIONS && Live(key)
    {
      ghost var before, cached, claimed := history, cacheFrame, claims;
      match call {
        case AskPressed(frame, key) => answer := Pressed(frame, key);
        case AskDown(frame, key) => answer := Down(frame, key);
        case AskModified(frame) => answer := IsModified(frame);
        case Claim(key) =>
          ClaimDirectionalInput(key);
          answer := false;
        case AskClaimed(frame) => answer := IsDirectionalInputClaimed(frame);
      }
      forall key | key in DIRECTIONS
        ensures Live(key) <==> call == Claim(key)
                               || (Stood(world, before, claimed, key) && KeepsClaim(world, call, cached, key))
      {
        KeptByCall(world, before, cached, claimed, call, history, claims, key);
      }
    }

    method AnyClaimed(frame: int, keys: seq<KeyCode>) returns (claimed: bool)
      requires Valid() && cacheFrame == frame && forall i :: 0 <= i < |keys| ==> keys[i] in DIRECTIONS
      modifies this, cacheKeyPressed, cacheKeyDown, claimedInput
      ensures Valid() && cacheFrame == frame && history == old(history)
      ensures claimed <==> exists i :: 0 <= i < |keys| && Live(keys[i])
      ensures forall i :: 0 <= i < |keys| && Live(keys[i]) ==> keys[i] in world(frame).pressed
      ensures GivenUp(old(claims), claims, world(frame).pressed)
    {
      claimed := false;
      for i := 0 to |keys|
        invariant Valid() && cacheFrame == frame && history == old(history)
        invariant claimed <==> exists j :: 0 <= j < i && Live(keys[j])
        invariant forall j :: 0 <= j < i && Live(keys[j]) ==> keys[j] in world(frame).pressed
        invariant GivenUp(old(claims), claims, world(frame).pressed)
      {
        var held := HoldsClaim(frame, keys[i]);
        claimed := claimed || held;
      }
    }

    method HoldsClaim(frame: int, key: KeyCode) returns (held: bool)
      requires Valid() && cacheFrame == frame && key in DIRECTIONS
      modifies this, cacheKeyPressed, cacheKeyDown, claimedInput
      ensures Valid() && cacheFrame == frame && history == old(history)
      ensures held <==> Live(key)
      ensures Live(key) ==> key in world(frame).pressed
      ensures claims == old(claims) || claims == old(claims) - {key}
      ensures key in old(claims) && key !in claims ==> key !in world(frame).pressed
      ensures forall other :: Live(other) <==> old(Live(other)) && (other == key ==> key in world(frame).pressed)
    {
      held := false;
      if claimedInput[key] {
        held := Pressed(frame, key);
        if !held {
          claimedInput[key] := false;
          claims := claims - {key};
        }
      }
    }
  }

  // How many frames pass before the first one in which a key is not held.
  function FramesHeld(world: int -> Snapshot, later: seq<int>, key: KeyCode): (n: nat)
    ensures n <= |later| && (n < |later| ==> key !in world(later[n]).pressed)
    ensures forall i :: 0 <= i < n ==> key in world(later[i]).pressed
  {
    if later == [] || key !in world(later[0]).pressed then 0 else 1 + FramesHeld(world, later[1..], key)
  }

  // Whatever frames are observed after a claim, it stands exactly until the first one of them in
  // which the key is not held, and does not come back afterwards.
  lemma ClaimUntilReleased(world: int -> Snapshot, history: seq<int>, later: seq<int>, key: KeyCode, n: nat)
    requires n <= |later|
    ensures HeldSince(world, history + later[..n], key, |history|) <==> n <= FramesHeld(world, later, key)
  {
    var all, held := history + later[..n], FramesHeld(world, later, key);
    assert forall i :: |history| <= i < |all| ==> all[i] == later[i - |history|];
    if held < n {
      assert all[|history| + held] == later[held];
    }
  }

  // ---- Whole runs ----

  function FrameAfter(calls: seq<Call>): int {
    if calls == [] then -1 else FrameOf(calls[|calls| - 1], FrameAfter(calls[..|calls| - 1]))
  }

  // Whether a direction is claimed after some calls.
  predicate Claimed(world: int -> Snapshot, calls: seq<Call>, key: KeyCode) {
    calls != [] &&
    var before, last := calls[..|calls| - 1], calls[|calls| - 1];
    last == Claim(key) || (Claimed(world, before, key) && KeepsClaim(world, last, FrameAfter(before), key))
  }

  // No call from position j on drops a claim of the key.
  ghost predicate NotDropped(world: int -> Snapshot, calls: seq<Call>, j: nat, key: KeyCode) {
    forall k :: j < k < |calls| ==> KeepsClaim(world, calls[k], FrameAfter(calls[..k]), key)
  }

  ghost predicate ClaimedAt(world: int -> Snapshot, calls: seq<Call>, j: nat, key: KeyCode) {
    j < |calls| && calls[j] == Claim(key) && NotDropped(world, calls, j, key)
  }

  // So it is claimed exactly when it was at some call, and no later call dropped the claim.
  lemma {:induction false} ClaimedSince(world: int -> Snapshot, calls: seq<Call>, key: KeyCode)
    ensures Claimed(world, calls, key) <==> exists j: nat :: ClaimedAt(world, calls, j, key)
  {
    if calls != [] {
      var n := |calls| - 1;
      var before := calls[..n];
      ClaimedSince(world, before, key);
      if j: nat :| ClaimedAt(world, before, j, key) {
        ClaimedAtMore(world, calls, n, j, key);
      }
      if j: nat :| ClaimedAt(world, calls, j, key) {
        ClaimedAtMore(world, calls, n, j, key);
      }
      ClaimedAtMore(world, calls, n, n, key);
    }
  }

  lemma ClaimedAtMore(world: int -> Snapshot, calls: seq<Call>, n: nat, j: nat, key: KeyCode)
    requires |calls| == n + 1
    ensures ClaimedAt(world, calls, j, key) <==>
              || (j == n && calls[n] == Claim(key))
              || (ClaimedAt(world, calls[..n], j, key) && KeepsClaim(world, calls[n], FrameAfter(calls[..n]), key))
  {
    if j < n {
      NotDroppedMore(world, calls, j, key);
    }
  }

  lemma NotDroppedMore(world: int -> Snapshot, calls: seq<Call>, j: nat, key: KeyCode)
    requires j < |calls| - 1
    ensures var n := |calls| - 1;
            NotDropped(world, calls, j, key) <==>
              NotDropped(world, calls[..n], j, key) && KeepsClaim(world, calls[n], FrameAfter(calls[..n]), key)
  {
    var n := |calls| - 1;
    forall k | j < k < n ensures calls[..n][..k] == calls[..k] && calls[..n][k] == calls[k] {}
  }

  // What the last of some calls is answered.
  predicate Answer(world: int -> Snapshot, calls: seq<Call>)
    requires calls != []
  {
    match calls[|calls| - 1]
    case AskPressed(frame, key) => key in world(frame).pressed
    case AskDown(frame, key) => key in world(frame).down
    case AskModified(frame) => AnyPressed(MODIFIERS, world(frame).pressed)
    case Claim(_) => false
    case AskClaimed(_) => exists key :: key in DIRECTIONS && Claimed(world, calls, key)
  }

  // Over any calls, in any order of frames, every answer depends only on the calls so far and on
  // what the engine reports in their frames.
  method Run(world: int -> Snapshot, calls: seq<Call>) returns (answers: seq<bool>)
    requires forall call :: call in calls ==> call.InRange()
    ensures |answers| == |calls| && forall i :: 0 <= i < |calls| ==> answers[i] == Answer(world, calls[..i + 1])
  {
    var cache := new Cache(world);
    answers := [];
    for i := 0 to |calls|
      invariant fresh(cache) && fresh(cache.cacheKeyPressed) && fresh(cache.cacheKeyDown) && fresh(cache.claimedInput)
      invariant cache.Valid() && cache.world == world && cache.cacheFrame == FrameAfter(calls[..i])
      invariant forall key :: key in DIRECTIONS ==> (cache.Live(key) <==> Claimed(world, calls[..i], key))
      invariant |answers| == i && forall k :: 0 <= k < i ==> answers[k] == Answer(world, calls[..k + 1])
    {
      assert calls[..i + 1][..i] == calls[..i] && calls[..i + 1][i] == calls[i] && calls[i] in calls;
      var answer := cache.Do(calls[i]);
      answers := answers + [answer];
    }
  }
}
