// Carrying out an update plan: everything is staged first, and the installed tree is touched
// only at the end. Any single file operation may fail.
module GameUpdater {
  import opened Options
  import opened Disk
  import opened PatchPath
  import opened UpdatePlan
  import opened PlanRules
  import Decimal

  datatype Outcome = FailedStaging | FailedFinalizing | Finished

  // The installed version is the number after the first "=", 0 when the file cannot be read or
  // that is no number. None stands for the index out of range when nothing follows an "=".
  function InstalledVersion(game: Tree): Option<nat> {
    if VERSION !in game || !game[VERSION].File? then Some(0) else
      var parts := SplitAtEquals(game[VERSION].content);
      if |parts| < 2 then None
      else if Decimal.Parse(parts[1]).None? then Some(0) else Decimal.Parse(parts[1])
  }

  // Splitting omits empty pieces.
  function SplitAtEquals(s: string): seq<string>
    decreases |s|
  {
    if s == [] then []
    else if s[0] == '=' then SplitAtEquals(s[1..])
    else
      var n := EqualsRun(s);
      [s[..n]] + SplitAtEquals(s[n..])
  }

  function EqualsRun(s: string): (n: nat)
    ensures n <= |s| && (s != [] && s[0] != '=' ==> n > 0)
  {
    if s == [] || s[0] == '=' then 0 else 1 + EqualsRun(s[1..])
  }

  lemma {:induction false} EqualsRunOf(name: string, rest: string)
    requires '=' !in name && (rest == [] || rest[0] == '=')
    ensures EqualsRun(name + rest) == |name|
  {
    if name == [] {
      assert name + rest == rest;
    } else {
      assert name[0] in name && (name + rest)[1..] == name[1..] + rest;
      EqualsRunOf(name[1..], rest);
    }
  }

  // The version that was written is the version that is read back.
  lemma VersionReadsBack(game: Tree, version: nat)
    ensures InstalledVersion(game[VERSION := File(VersionText(version))]) == Some(version)
  {
    var digits := Decimal.Numeral(version);
    SplitVersion(digits);
    Decimal.ParseNumeral(version);
  }

  lemma SplitVersion(digits: string)
    requires digits != [] && '=' !in digits
    ensures SplitAtEquals("&game=" + digits) == ["&game", digits]
  {
    var name, rest := "&game", "=" + digits;
    assert "&game=" + digits == name + rest;
    EqualsRunOf(name, rest);
    EqualsRunOf(digits, "");
    assert (name + rest)[..5] == name && (name + rest)[5..] == rest && rest[1..] == digits && digits + "" == digits;
    assert SplitAtEquals(digits) == [digits] + SplitAtEquals([]);
    assert SplitAtEquals(rest) == SplitAtEquals(digits);
  }

  lemma NotUnder(t: Tree, p: Path, q: Path)
    requires WellFormed(t) && p !in t && p <= q
    ensures q !in t
  {
    assert q[..|p|] == p;
    assert |p| == |q| ==> p == q;
  }

  lemma RemovingNothing(t: Tree, p: Path)
    requires WellFormed(t) && p !in t
    ensures Removed(t, p) == t
  {
    forall q | p <= q ensures q !in t {
      NotUnder(t, p, q);
    }
  }

  lemma PatchingIsBeside(p: Path)
    requires p != []
    ensures !(p <= PatchingName(p)) && !(PatchingName(p) <= p)
    ensures Parent(PatchingName(p)) == Parent(p) && PatchingName(p) != []
    ensures !(PatchingName(p) <= Parent(p)) && !(p <= Parent(p))
  {
    assert PatchingName(p)[|p| - 1] != p[|p| - 1];
  }

  // Writing beside p, making room at p, and moving what was written there.
  lemma MovedIntoPlace(swept: Tree, patched: Path, p: Path, written: Node)
    requires patched !in swept && !(p <= patched)
    ensures var left := Removed(swept[patched := written], p);
            patched in left && (left - {patched})[p := left[patched]] == Removed(swept, p)[p := written]
  {
  }

  // What is staged at or under a directory.
  ghost function Under(t: Tree, d: Path): set<Path> {
    set p | p in t && d <= p
  }

  lemma AddDirectory(t: Tree, d: Path)
    requires WellFormed(t) && (d in t ==> t[d] == Dir) && (d != [] ==> At(t, Parent(d)) == Some(Dir))
    ensures WellFormed(t[d := Dir])
  {
    if d in t {
      assert t[d := Dir] == t;
    } else {
      RemovingNothing(t, d);
      assert forall q :: q in t ==> q in Removed(t, d);
      PlacedWellFormed(t, d, Dir);
    }
  }

  lemma UnderShrinks(t: Tree, item: Path)
    requires WellFormed(t) && item in t && item != []
    ensures Under(t, item) < Under(t, Parent(item))
  {
    assert item[..|item| - 1] == Parent(item);
    assert Parent(item) in Under(t, Parent(item)) && Parent(item) !in Under(t, item);
    forall p | p in Under(t, item) ensures Parent(item) <= p {
      PrefixTransitive(Parent(item), item, p);
    }
  }

  // What lies under one item of a directory lies in the directory and under no other item.
  lemma ItemsApart(d: Path, item: Path, other: Path, p: Path)
    requires |item| == |d| + 1 && d <= item <= p
    ensures d <= p && (|other| == |item| && other <= p ==> other == item)
  {
    PrefixTransitive(d, item, p);
    assert item == p[..|item|];
  }

  // Replacing what lies at and under a staged file or link, however far it got, is part of the
  // copy.
  lemma LeafReplaced(stage: Tree, game: Tree, left: Tree, item: Path)
    requires WellFormed(stage) && item in stage && stage[item] != Dir && item != []
    requires forall p :: item <= p || At(left, p) == At(game, p)
    ensures PartlyCopied(stage, game, left)
    ensures forall p :: item <= p ==>
              At(Removed(game, item)[item := stage[item]], p) == At(Overlay(stage, game), p)
  {
    forall p | item <= p && p != item ensures p !in stage && Covered(stage, p) {
      assert p[..|item|] == item;
    }
  }

  // A directory is done when its own items are: nothing of the overlay reaches the rest.
  lemma DirectoryDone(stage: Tree, under: Tree, game: Tree, d: Path)
    requires WellFormed(stage) && At(stage, d) == Some(Dir) && PartlyCopied(stage, under, game) && At(game, d) == Some(Dir)
    requires forall item, p :: item in stage && |item| == |d| + 1 && d <= item <= p ==>
               At(game, p) == At(Overlay(stage, under), p)
    ensures forall p :: d <= p ==> At(game, p) == At(Overlay(stage, under), p)
  {
    forall p | d <= p ensures At(game, p) == At(Overlay(stage, under), p) {
      if p != d {
        var item := p[..|d| + 1];
        assert d <= item <= p;
        if item !in stage {
          NotReached(stage, d, p);
          assert At(game, p) == At(under, p);
        }
      }
    }
  }

  lemma NotReached(stage: Tree, d: Path, p: Path)
    requires WellFormed(stage) && At(stage, d) == Some(Dir) && d <= p && p != d && p[..|d| + 1] !in stage
    ensures p !in stage && !Covered(stage, p)
  {
    forall i | 0 <= i <= |p| && p[..i] in stage ensures i <= |d| && stage[p[..i]] == Dir {
      PrefixesOf(p, d, i);
    }
    assert p[..|p|] == p;
  }

  lemma PrefixesOf(p: Path, d: Path, i: nat)
    requires d <= p && i <= |p|
    ensures if i <= |d| then p[..i] == d[..i] && (i == |d| ==> d[..i] == d)
            else p[..i][..|d| + 1] == p[..|d| + 1] && (i == |d| + 1 ==> p[..i] == p[..|d| + 1])
  {
  }

  lemma DeletedOneMore(t: Tree, stage: Tree, deletes: seq<Path>, i: nat)
    requires i < |deletes|
    ensures Deleted(t, stage, deletes[..i + 1])
            == if deletes[i] in stage then Deleted(t, stage, deletes[..i])
               else Removed(Deleted(t, stage, deletes[..i]), deletes[i])
  {
    assert deletes[..i + 1] == deletes[..i] + [deletes[i]];
  }

  // The first k deletes are done, and perhaps part of the next one.
  ghost predicate DeletedUpTo(t: Tree, stage: Tree, deletes: seq<Path>, k: nat, left: Tree) {
    && k <= |deletes|
    && forall q :: || At(left, q) == At(Deleted(t, stage, deletes[..k]), q)
                   || (q !in left && k < |deletes| && deletes[k] !in stage && deletes[k] <= q)
  }

  // What deletes applied one after another may leave when they stop anywhere.
  ghost predicate PartlyDeleted(t: Tree, stage: Tree, deletes: seq<Path>, left: Tree) {
    exists k: nat :: DeletedUpTo(t, stage, deletes, k, left)
  }

  // Applying the deletes again from wherever they stopped gives what one whole run gives.
  lemma DeletesResume(t: Tree, stage: Tree, deletes: seq<Path>, left: Tree)
    requires PartlyDeleted(t, stage, deletes, left)
    ensures Deleted(left, stage, deletes) == Deleted(t, stage, deletes)
  {
    var k: nat :| DeletedUpTo(t, stage, deletes, k, left);
    assert forall d :: d in deletes[..k] ==> d in deletes;
    forall q ensures At(Deleted(left, stage, deletes), q) == At(Deleted(t, stage, deletes), q) {
      assert At(left, q) == At(left, q);
      if k < |deletes| && deletes[k] !in stage && deletes[k] <= q {
        assert deletes[k] in deletes;
      }
    }
    SameAt(Deleted(left, stage, deletes), Deleted(t, stage, deletes));
  }

  lemma NotDeletedAt(t: Tree, stage: Tree, deletes: seq<Path>, left: Tree, p: Path)
    requires PartlyDeleted(t, stage, deletes, left) && forall d :: d in deletes ==> !(d <= p)
    ensures At(left, p) == At(t, p)
  {
    var k: nat :| DeletedUpTo(t, stage, deletes, k, left);
    assert forall d :: d in deletes[..k] ==> d in deletes;
    assert k < |deletes| ==> deletes[k] in deletes;
    assert At(left, p) == At(Deleted(t, stage, deletes[..k]), p);
  }

  lemma SameAt(a: Tree, b: Tree)
    requires forall q :: At(a, q) == At(b, q)
    ensures a == b
  {
    forall q ensures (q in a <==> q in b) && (q in a ==> a[q] == b[q]) {
      assert At(a, q) == At(b, q);
    }
  }

  // No rule names the version file or reaches it.
  predicate SparesVersion(steps: seq<Step>) {
    forall s :: s in steps ==> s.path != [] && s.path != VERSION && !Reaches(VERSION, s.kind, s.path)
  }

  // A plan with its deltas, which are trees; no rule names the root.
  ghost predicate Proper(steps: seq<Step>) {
    forall s :: s in steps ==> s.path != [] && WellFormed(s.delta)
  }

  lemma {:induction false} NotNamed(rsync: Rsync, p: Path, installed: Option<Node>, steps: seq<Step>)
    requires forall s :: s in steps ==> s.path != p
    ensures NamedSteps(rsync, p, installed, steps) == None
  {
    if steps != [] {
      assert steps[|steps| - 1] in steps && forall s :: s in steps[..|steps| - 1] ==> s in steps;
      NotNamed(rsync, p, installed, steps[..|steps| - 1]);
    }
  }

  // Nothing is staged at the version file, nor above it.
  lemma VersionNotStaged(rsync: Rsync, game: Tree, steps: seq<Step>, stage: Tree)
    requires Proper(steps) && WellFormed(game) && SparesVersion(steps) && StagedAll(rsync, game, steps) == Some(stage)
    ensures VERSION !in stage && !Covered(stage, VERSION)
  {
    StagedAllAtPath(rsync, game, steps, VERSION);
    NotNamed(rsync, VERSION, At(game, VERSION), steps);
    assert VERSION[..0] == [];
  }

  lemma VersionSpared(rsync: Rsync, game: Tree, steps: seq<Step>, stage: Tree, left: Tree)
    requires Proper(steps) && WellFormed(game) && StagedAll(rsync, game, steps) == Some(stage)
    requires PartlyCopied(stage, game, left)
    ensures SparesVersion(steps) ==> At(left, VERSION) == At(game, VERSION)
  {
    if SparesVersion(steps) {
      VersionNotStaged(rsync, game, steps, stage);
    }
  }

  lemma VersionNotDeleted(rsync: Rsync, game: Tree, steps: seq<Step>, stage: Tree, left: Tree)
    requires Proper(steps) && WellFormed(game) && StagedAll(rsync, game, steps) == Some(stage)
    requires PartlyDeleted(Overlay(stage, game), stage, DeletesOf(steps), left)
    ensures SparesVersion(steps) ==> At(left, VERSION) == At(game, VERSION)
  {
    if SparesVersion(steps) {
      VersionNotStaged(rsync, game, steps, stage);
      assert At(Overlay(stage, game), VERSION) == At(game, VERSION);
      forall d | d in DeletesOf(steps) ensures !(d <= VERSION) {
        DeletesOfSteps(steps, d);
      }
      NotDeletedAt(Overlay(stage, game), stage, DeletesOf(steps), left, VERSION);
    }
  }

  // The steps can be staged after those already done.
  predicate Stageable(rsync: Rsync, game: Tree, done: seq<Step>, steps: Option<seq<Step>>) {
    && steps.Some? && (forall s :: s in done + steps.value ==> s.path != [])
    && StagedAll(rsync, game, done + steps.value).Some?
  }

  predicate Completes(rsync: Rsync, game: Tree, steps: seq<Step>, version: Option<nat>) {
    && (forall s :: s in steps ==> s.path != []) && FinalTree(rsync, game, steps).Some?
    && (version.Some? ==> At(FinalTree(rsync, game, steps).value, VERSION) != Some(Dir))
  }

  // Nothing in the plan or in the way of it keeps it from being carried out.
  predicate CanFinish(rsync: Rsync, game: Tree, actions: seq<Action>) {
    StepsOf(actions).Some? && Completes(rsync, game, StepsOf(actions).value, VersionOf(actions))
  }

  lemma FromNothing(rsync: Rsync, game: Tree, actions: seq<Action>)
    ensures CanFinish(rsync, game, actions) ==> Stageable(rsync, game, [], StepsOf(actions))
  {
    if StepsOf(actions).Some? {
      assert [] + StepsOf(actions).value == StepsOf(actions).value;
    }
  }

  lemma {:induction false} StageablePrefix(rsync: Rsync, game: Tree, steps: seq<Step>, n: nat)
    requires n <= |steps| && (forall s :: s in steps ==> s.path != []) && StagedAll(rsync, game, steps).Some?
    ensures (forall s :: s in steps[..n] ==> s.path != []) && StagedAll(rsync, game, steps[..n]).Some?
    decreases |steps|
  {
    if n < |steps| {
      var before := steps[..|steps| - 1];
      assert forall s :: s in before ==> s in steps;
      StageablePrefix(rsync, game, before, n);
      assert before[..n] == steps[..n];
    } else {
      assert steps[..n] == steps;
    }
  }

  lemma PartStageable(rsync: Rsync, game: Tree, all: seq<Step>, done: seq<Step>, more: seq<Step>)
    requires (forall s :: s in all ==> s.path != []) && StagedAll(rsync, game, all).Some? && done + more <= all
    ensures Stageable(rsync, game, done, Some(more))
  {
    var next := done + more;
    assert next == all[..|next|];
    StageablePrefix(rsync, game, all, |next|);
  }

  lemma {:induction false} RulesPrefix(rules: seq<Rule>, delta: Tree, n: nat)
    requires n <= |rules| && StepsOfRules(rules, delta).Some?
    ensures StepsOfRules(rules[..n], delta).Some? && StepsOfRules(rules[..n], delta).value <= StepsOfRules(rules, delta).value
    decreases |rules|
  {
    if n < |rules| {
      var before := rules[..|rules| - 1];
      RulesPrefix(before, delta, n);
      assert before[..n] == rules[..n];
    } else {
      assert rules[..n] == rules;
    }
  }

  lemma {:induction false} ActionsPrefix(actions: seq<Action>, n: nat)
    requires n <= |actions| && StepsOf(actions).Some?
    ensures StepsOf(actions[..n]).Some? && StepsOf(actions[..n]).value <= StepsOf(actions).value
    decreases |actions|
  {
    if n < |actions| {
      var before := actions[..|actions| - 1];
      ActionsPrefix(before, n);
      assert before[..n] == actions[..n];
    } else {
      assert actions[..n] == actions;
    }
  }

  // What can be staged as a whole can be staged one by one.
  lemma RulePrefix(rsync: Rsync, game: Tree, rules: seq<Rule>, delta: Tree, i: nat, done: seq<Step>, staged: seq<Step>)
    requires i < |rules| && StepsOfRules(rules[..i], delta).Some? && staged == done + StepsOfRules(rules[..i], delta).value
    ensures Stageable(rsync, game, done, StepsOfRules(rules, delta)) ==>
              Stageable(rsync, game, staged, StepsOfRule(rules[i], delta))
  {
    if Stageable(rsync, game, done, StepsOfRules(rules, delta)) {
      var all := done + StepsOfRules(rules, delta).value;
      RulesPrefix(rules, delta, i + 1);
      assert rules[..i + 1][..i] == rules[..i] && rules[..i + 1][i] == rules[i];
      OneRuleMore(rules, delta, i, done);
      PartStageable(rsync, game, all, staged, StepsOfRule(rules[i], delta).value);
    }
  }

  lemma ActionPrefix(rsync: Rsync, game: Tree, actions: seq<Action>, i: nat, rules: Option<seq<Rule>>, delta: Tree,
                     done: seq<Step>, all: Option<seq<Step>>)
    requires i < |actions| && actions[i] == Patch(rules, delta)
    requires StepsOf(actions[..i]) == Some(done) && all == StepsOf(actions)
    ensures Stageable(rsync, game, [], all) ==>
              rules.Some? && Stageable(rsync, game, done, StepsOfRules(rules.value, delta))
  {
    if Stageable(rsync, game, [], all) {
      var more := ActionSteps(actions, i, rules, delta, done);
      assert [] + all.value == all.value;
      PartStageable(rsync, game, all.value, done, more);
    }
  }

  lemma ActionSteps(actions: seq<Action>, i: nat, rules: Option<seq<Rule>>, delta: Tree, done: seq<Step>)
    returns (more: seq<Step>)
    requires i < |actions| && actions[i] == Patch(rules, delta)
    requires StepsOf(actions).Some? && StepsOf(actions[..i]) == Some(done)
    ensures rules.Some? && StepsOfRules(rules.value, delta) == Some(more) && done + more <= StepsOf(actions).value
  {
    ActionsPrefix(actions, i + 1);
    ActionStep(actions, i);
    more := StepsOfRules(rules.value, delta).value;
  }

  lemma ActionStep(actions: seq<Action>, i: nat)
    requires i < |actions| && actions[i].Patch? && StepsOf(actions[..i + 1]).Some?
    ensures StepsOf(actions[..i]).Some? && actions[i].rules.Some?
    ensures StepsOfRules(actions[i].rules.value, actions[i].delta).Some?
    ensures StepsOf(actions[..i + 1]).value
            == StepsOf(actions[..i]).value + StepsOfRules(actions[i].rules.value, actions[i].delta).value
  {
    assert actions[..i + 1][..i] == actions[..i] && actions[..i + 1][i] == actions[i];
  }

  lemma NoEmptyDeletes(steps: seq<Step>)
    requires forall s :: s in steps ==> s.path != []
    ensures [] !in DeletesOf(steps)
  {
    DeletesOfSteps(steps, []);
  }

  // A copy of the whole tree that completed is the overlay, and met no clash.
  lemma CopiedWhole(stage: Tree, game: Tree, left: Tree)
    requires PartlyCopied(stage, game, left) && forall p: Path :: [] <= p ==> At(left, p) == At(Overlay(stage, game), p)
    ensures left == Overlay(stage, game) && !Clashes(stage, game)
  {
    forall p: Path ensures At(left, p) == At(Overlay(stage, game), p) {
      assert [] <= p;
    }
    forall p: Path ensures p in left <==> p in Overlay(stage, game) {
      assert At(left, p) == At(Overlay(stage, game), p);
    }
    forall p | p in left ensures left[p] == Overlay(stage, game)[p] {
      assert At(left, p) == At(Overlay(stage, game), p);
    }
    forall p | p in stage && stage[p] == Dir && p in game ensures game[p] == Dir {
      assert At(left, p) == At(Overlay(stage, game), p) == Some(Dir);
    }
  }

  class Updater {
    const rsync: Rsync
    const reliable: bool  // whether no file operation, download or extraction fails by itself
    var stage: Tree
    var game: Tree
    var pendingDeletes: seq<Path>
    var pendingVersion: Option<nat>

    constructor (rsync: Rsync, reliable: bool, game: Tree)
      ensures this.rsync == rsync && this.reliable == reliable && this.game == game
    {
      this.rsync, this.reliable, this.game := rsync, reliable, game;
      stage, pendingDeletes, pendingVersion := EMPTY_TREE, [], None;
    }

    // Whether the next operation of the system succeeds.
    method Works() returns (ok: bool)
      ensures reliable ==> ok
    {
      ok := *;
      if reliable {
        ok := true;
      }
    }

    // ---------------------------------------------------------------------------------
    // Staging
    // ---------------------------------------------------------------------------------

    method MakeDirs(p: Path) returns (ok: bool)
      requires WellFormed(stage)
      modifies this`stage
      ensures WellFormed(stage)
      ensures ok ==> CanMakeDirs(old(stage), p) && stage == WithDirs(old(stage), p) && At(stage, p) == Some(Dir)
      ensures reliable && CanMakeDirs(old(stage), p) ==> ok
    {
      ok := Works();
      if !CanMakeDirs(stage, p) {
        ok := false;
      }
      if ok {
        WithDirsWellFormed(stage, p);
        stage := WithDirs(stage, p);
      }
    }

    method RemoveIfPresent(p: Path) returns (ok: bool)
      requires WellFormed(stage) && p != []
      modifies this`stage
      ensures WellFormed(stage) && (ok ==> stage == Removed(old(stage), p))
      ensures reliable ==> ok
    {
      ok := true;
      RemovedWellFormed(stage, p);
      if p in stage {
        ok := Works();
        if ok {
          stage := Removed(stage, p);
        }
      } else {
        RemovingNothing(stage, p);
      }
    }

    method ApplyPatch(step: Step) returns (ok: bool)
      requires step.kind == PatchKind && step.path != [] && WellFormed(stage)
      modifies this`stage
      ensures ok ==> Staged(rsync, old(stage), game, step) == Some(stage)
      ensures reliable && Staged(rsync, old(stage), game, step).Some? ==> ok
    {
      var p, patched := step.path, PatchingName(step.path);
      var basis := if p in stage then At(stage, p) else At(game, p);
      ok := MakeDirs(Parent(p));
      if !ok { return; }
      ok := RemoveIfPresent(patched);
      if !ok { return; }
      var result := Patched(rsync, basis, At(step.delta, p));
      ok := Works();
      if !ok || result.None? {
        stage := Removed(stage, patched);
        return false;
      }
      ghost var swept, written := stage, File(result.value);
      PatchingIsBeside(p);
      PlacedWellFormed(stage, patched, written);
      stage := stage[patched := File(result.value)];
      ok := RemoveIfPresent(p);
      if !ok { return; }
      ok := Works();
      MovedIntoPlace(swept, patched, p, written);
      stage := (stage - {patched})[p := stage[patched]];
    }

    method ApplyRule(step: Step) returns (ok: bool)
      requires step.path != [] && WellFormed(stage)
      modifies this`stage, this`pendingDeletes
      ensures ok ==> Staged(rsync, old(stage), game, step) == Some(stage)
      ensures reliable && Staged(rsync, old(stage), game, step).Some? ==> ok
      ensures ok ==> pendingDeletes == old(pendingDeletes) + if step.kind == DeleteKind then [step.path] else []
    {
      var p := step.path;
      match step.kind {
        case PatchKind =>
          ok := ApplyPatch(step);
        case CreateKind =>
          ok := true;
          if p !in stage {
            ok := MakeDirs(Parent(p));
            if !ok { return; }
            ok := Works();
            stage := stage[p := File("")];
          }
        case DeleteKind =>
          pendingDeletes := pendingDeletes + [p];
          ok := true;
        case CopyKind =>
          ok := MakeDirs(Parent(p));
          if !ok { return; }
          ok := RemoveIfPresent(p);
          if !ok { return; }
          ok := Works();
          if p !in step.delta {
            return false;
          }
          stage := Copied(stage, step.delta, p);
        case UnknownKind =>
          ok := true;
      }
    }

    // What is staged and queued is what the given steps amount to.
    ghost predicate Holds(steps: seq<Step>)
      reads this
    {
      && WellFormed(stage) && Proper(steps)
      && StagedAll(rsync, game, steps) == Some(stage) && pendingDeletes == DeletesOf(steps)
    }

    method StageRule(rule: Rule, delta: Tree, ghost done: seq<Step>) returns (ok: bool)
      requires Holds(done) && WellFormed(delta)
      modifies this`stage, this`pendingDeletes
      ensures ok ==> StepsOfRule(rule, delta).Some? && Holds(done + StepsOfRule(rule, delta).value)
      ensures reliable && Stageable(rsync, game, done, StepsOfRule(rule, delta)) ==> ok
    {
      var path := NormalizedRelativePatchPath(rule.relativePath);
      if path.None? {
        return false;
      }
      assert done + [] == done;
      if Skipped(path.value) {
        return true;
      }
      var step := Step(KindOf(rule.kind), path.value, delta);
      ghost var before := stage;
      StagedLast(rsync, game, done, step);
      ok := ApplyRule(step);
      if ok {
        StagedWellFormed(rsync, before, game, step);
        assert (done + [step])[..|done|] == done;
      }
    }

    // Stages the rules of one patch action after the steps already done.
    method StageRules(rules: seq<Rule>, delta: Tree, ghost done: seq<Step>) returns (ok: bool)
      requires Holds(done) && WellFormed(delta)
      modifies this`stage, this`pendingDeletes
      ensures ok ==> StepsOfRules(rules, delta).Some? && Holds(done + StepsOfRules(rules, delta).value)
      ensures reliable && Stageable(rsync, game, done, StepsOfRules(rules, delta)) ==> ok
    {
      ghost var staged := done;
      assert staged == done + [];
      for i := 0 to |rules|
        invariant StepsOfRules(rules[..i], delta).Some? && staged == done + StepsOfRules(rules[..i], delta).value
        invariant Holds(staged)
      {
        RulePrefix(rsync, game, rules, delta, i, done, staged);
        ok := StageRule(rules[i], delta, staged);
        if !ok { return; }
        OneRuleMore(rules, delta, i, done);
        staged := staged + StepsOfRule(rules[i], delta).value;
      }
      assert rules[..|rules|] == rules;
      ok := true;
    }

    // ---------------------------------------------------------------------------------
    // Finalizing
    // ---------------------------------------------------------------------------------

    // Copies what is staged under directory d over the game tree, item by item, in any order.
    method CopyContentsOfDirectory(d: Path) returns (ok: bool)
      requires WellFormed(stage) && WellFormed(game) && At(stage, d) == Some(Dir)
      requires d != [] ==> At(game, Parent(d)) == Some(Dir)
      modifies this`game
      ensures WellFormed(game) && PartlyCopied(stage, old(game), game)
      ensures forall p :: !(d <= p) ==> At(game, p) == At(old(game), p)
      ensures ok ==> forall p :: d <= p ==> At(game, p) == At(Overlay(stage, old(game)), p)
      ensures reliable && !Clashes(stage, old(game)) ==> ok
      decreases Under(stage, d), 1
    {
      if d in game && game[d] != Dir {
        return false;
      }
      ok := Works();
      if !ok { return; }
      AddDirectory(game, d);
      game := game[d := Dir];
      var items := set p | p in stage.Keys && |p| == |d| + 1 && d <= p;
      ghost var all := items;
      while items != {}
        invariant items <= all && WellFormed(game) && PartlyCopied(stage, old(game), game)
        invariant At(game, d) == Some(Dir) && forall p :: !(d <= p) ==> At(game, p) == At(old(game), p)
        invariant forall item, p :: item in all - items && item <= p ==> At(game, p) == At(Overlay(stage, old(game)), p)
        decreases items
      {
        var item :| item in items;
        ghost var before, left := game, items;
        assert Parent(item) == d;
        ok := CopyItem(item);
        PartlyCopiedTransitive(stage, old(game), before, game);
        CopyResumes(stage, old(game), before);
        forall p | !(d <= p) ensures At(game, p) == At(old(game), p) {
          if item <= p { ItemsApart(d, item, item, p); }
        }
        if !ok { return; }
        items := items - {item};
        forall other, p | other in all - items && other <= p ensures At(game, p) == At(Overlay(stage, old(game)), p) {
          if item <= p {
            ItemsApart(d, item, other, p);
          } else {
            assert other in all - left && At(before, p) == At(Overlay(stage, old(game)), p);
          }
        }
      }
      assert forall item :: item in stage && |item| == |d| + 1 && d <= item ==> item in all - items;
      DirectoryDone(stage, old(game), game, d);
      ok := true;
    }

    // A copy that stopped anywhere, run again to its end, gives what one whole copy gives.
    method CopyAgain() returns (ok: bool)
      requires WellFormed(stage) && WellFormed(game)
      modifies this`game
      ensures ok ==> game == Overlay(stage, old(game)) && !Clashes(stage, old(game))
    {
      var _ := CopyContentsOfDirectory([]);
      ghost var stopped := game;
      CopyResumes(stage, old(game), stopped);
      ok := CopyContentsOfDirectory([]);
      if ok {
        CopiedWhole(stage, stopped, game);
      }
    }

    // One item of a directory listing: a file or link replaces what is there, a directory is
    // copied into.
    method CopyItem(item: Path) returns (ok: bool)
      requires WellFormed(stage) && WellFormed(game) && item in stage && item != []
      requires At(game, Parent(item)) == Some(Dir)
      modifies this`game
      ensures WellFormed(game) && PartlyCopied(stage, old(game), game)
      ensures forall p :: !(item <= p) ==> At(game, p) == At(old(game), p)
      ensures ok ==> forall p :: item <= p ==> At(game, p) == At(Overlay(stage, old(game)), p)
      ensures reliable && !Clashes(stage, old(game)) ==> ok
      decreases Under(stage, Parent(item)), 0
    {
      if stage[item] == Dir {
        UnderShrinks(stage, item);
        ok := CopyContentsOfDirectory(item);
        return;
      }
      if item in game {
        ok := RemoveFromGame(item);
        LeafReplaced(stage, old(game), game, item);
        if !ok { return; }
      } else {
        LeafReplaced(stage, old(game), game, item);
        RemovingNothing(game, item);
      }
      ok := Works();
      if !ok { return; }
      PlacedWellFormed(game, item, stage[item]);
      game := game[item := stage[item]];
      LeafReplaced(stage, old(game), game, item);
    }

    // Removing a file or a directory from the game tree. A removal that fails may have taken
    // part of the directory away.
    method RemoveFromGame(p: Path) returns (ok: bool)
      requires WellFormed(game) && p != []
      modifies this`game
      ensures WellFormed(game) && (ok ==> game == Removed(old(game), p)) && (reliable ==> ok)
      ensures forall q :: p <= q || At(game, q) == At(old(game), q)
      ensures forall q :: At(game, q) == At(old(game), q) || q !in game
    {
      ok := Works();
      if ok {
        RemovedWellFormed(game, p);
        game := Removed(game, p);
      } else {
        var gone: set<Path> := *;
        PartlyRemovedWellFormed(game, p, gone);
        game := PartlyRemoved(game, p, gone);
      }
    }

    // Applies the deferred deletes, one after another.
    method DeleteGamePaths() returns (ok: bool)
      requires WellFormed(game) && [] !in pendingDeletes
      modifies this`game
      ensures WellFormed(game) && PartlyDeleted(old(game), stage, pendingDeletes, game)
      ensures ok ==> game == Deleted(old(game), stage, pendingDeletes)
      ensures reliable ==> ok
    {
      assert Deleted(game, stage, pendingDeletes[..0]) == game;
      for i := 0 to |pendingDeletes|
        invariant WellFormed(game) && game == Deleted(old(game), stage, pendingDeletes[..i])
      {
        var p := pendingDeletes[i];
        DeletedOneMore(old(game), stage, pendingDeletes, i);
        if p in stage {
          continue;
        }
        if p !in game {
          RemovingNothing(game, p);
          continue;
        }
        ok := RemoveFromGame(p);
        if !ok {
          assert DeletedUpTo(old(game), stage, pendingDeletes, i, game);
          return;
        }
      }
      assert pendingDeletes[..|pendingDeletes|] == pendingDeletes;
      assert DeletedUpTo(old(game), stage, pendingDeletes, |pendingDeletes|, game);
      ok := true;
    }

    // The version is written last, in one piece.
    method WriteInstalledGameVersion(version: nat) returns (ok: bool)
      requires WellFormed(game)
      modifies this`game
      ensures game == if ok then old(game)[VERSION := File(VersionText(version))] else old(game)
      ensures ok ==> At(old(game), VERSION) != Some(Dir)
      ensures reliable && At(old(game), VERSION) != Some(Dir) ==> ok
    {
      if VERSION in game && game[VERSION] == Dir {
        return false;
      }
      ok := Works();
      if ok {
        game := game[VERSION := File(VersionText(version))];
      }
    }

    method StageActions(actions: seq<Action>) returns (ok: bool)
      requires WellFormed(game) && forall a :: a in actions && a.Patch? ==> WellFormed(a.delta)
      modifies this`stage, this`pendingDeletes, this`pendingVersion
      ensures ok ==> StepsOf(actions).Some? && Holds(StepsOf(actions).value) && pendingVersion == VersionOf(actions)
      ensures reliable && Stageable(rsync, game, [], StepsOf(actions)) ==> ok
    {
      stage, pendingDeletes, pendingVersion := EMPTY_TREE, [], None;
      for i := 0 to |actions|
        invariant StepsOf(actions[..i]).Some? && Holds(StepsOf(actions[..i]).value)
        invariant pendingVersion == VersionOf(actions[..i])
      {
        assert actions[..i + 1][..i] == actions[..i] && actions[..i + 1][i] == actions[i] && actions[i] in actions;
        match actions[i] {
          case Patch(rules, delta) =>
            ActionPrefix(rsync, game, actions, i, rules, delta, StepsOf(actions[..i]).value, StepsOf(actions));
            if rules.None? {
              return false;
            }
            ok := StageRules(rules.value, delta, StepsOf(actions[..i]).value);
            if !ok { return; }
          case Version(version) => pendingVersion := Some(version);
          case Download =>
            ok := Works();
            if !ok { return; }
          case Extract =>
            ok := Works();
            if !ok { return; }
          case WaitActions =>
        }
      }
      assert actions[..|actions|] == actions;
      ok := true;
    }

    // Stages the whole plan, then copies, then deletes, then writes the version.
    method UpdateGame(actions: seq<Action>) returns (outcome: Outcome)
      requires WellFormed(game) && forall a :: a in actions && a.Patch? ==> WellFormed(a.delta)
      modifies this
      ensures outcome == FailedStaging ==> game == old(game)
      ensures outcome != FailedStaging ==> StepsOf(actions).Some? && StagedFor(StepsOf(actions).value, old(game))
      ensures outcome == FailedFinalizing ==>
        || PartlyCopied(stage, old(game), game)
        || PartlyDeleted(Overlay(stage, old(game)), stage, pendingDeletes, game)
      ensures outcome == Finished ==>
        && FinalTree(rsync, old(game), StepsOf(actions).value).Some?
        && game == Versioned(FinalTree(rsync, old(game), StepsOf(actions).value).value, VersionOf(actions))
      ensures outcome == Finished ==> AsRuled(rsync, old(game), actions, game)
      ensures reliable && CanFinish(rsync, old(game), actions) ==> outcome == Finished
      ensures
        (&& outcome != FailedStaging && SparesVersion(StepsOf(actions).value)
         && At(game, VERSION) != At(old(game), VERSION))
        ==> outcome == Finished && VersionOf(actions).Some?
    {
      FromNothing(rsync, game, actions);
      var ok := StageActions(actions);
      if !ok {
        return FailedStaging;
      }
      ok := Finalize(StepsOf(actions).value);
      if !ok {
        return FailedFinalizing;
      }
      FinalIsAsRuled(rsync, old(game), actions);
      return Finished;
    }

    // Copies what is staged, then deletes, then writes the version.
    method Finalize(ghost steps: seq<Step>) returns (ok: bool)
      requires WellFormed(game) && Holds(steps)
      modifies this`game
      ensures !ok ==>
        || PartlyCopied(stage, old(game), game)
        || PartlyDeleted(Overlay(stage, old(game)), stage, pendingDeletes, game)
      ensures ok ==>
        && FinalTree(rsync, old(game), steps).Some?
        && game == Versioned(FinalTree(rsync, old(game), steps).value, pendingVersion)
      ensures reliable && Completes(rsync, old(game), steps, pendingVersion) ==> ok
      ensures SparesVersion(steps) && At(game, VERSION) != At(old(game), VERSION) ==> ok && pendingVersion.Some?
    {
      ok := CopyContentsOfDirectory([]);
      if !ok {
        VersionSpared(rsync, old(game), steps, stage, game);
        return;
      }
      CopiedWhole(stage, old(game), game);
      NoEmptyDeletes(steps);
      ok := DeleteGamePaths();
      VersionNotDeleted(rsync, old(game), steps, stage, game);
      if !ok { return; }
      if pendingVersion.Some? {
        ok := WriteInstalledGameVersion(pendingVersion.value);
      }
    }

    ghost predicate StagedFor(steps: seq<Step>, game: Tree)
      reads this
    {
      && Proper(steps)
      && StagedAll(rsync, game, steps) == Some(stage) && pendingDeletes == DeletesOf(steps)
    }
  }
}
