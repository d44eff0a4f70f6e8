// An update plan as it is read: its actions and rules, the steps they amount to, and what the
// rules themselves say of the content of a path.
module PlanRules {
  import opened Options
  import opened Disk
  import opened PatchPath
  import opened UpdatePlan
  import Decimal

  const VERSION: Path := [".version"]
  const CODE_SIGNATURE := "_CodeSignature"

  // A patch rule as it is read from the rule file.
  datatype Rule = Rule(relativePath: string, kind: string)

  datatype Action =
    | Download
    | Extract
    | Patch(rules: Option<seq<Rule>>, delta: Tree)  // no rules: the rule file could not be read
    | Version(version: nat)
    | WaitActions

  predicate Contains(s: string, part: string) {
    part <= s || (s != [] && Contains(s[1..], part))
  }

  function KindOf(kind: string): Kind {
    if kind == "patch" then PatchKind else if kind == "create" then CreateKind
    else if kind == "delete" then DeleteKind else if kind == "copy" then CopyKind else UnknownKind
  }

  // Code-signature files are made anew when the game is signed again.
  predicate Skipped(p: Path) {
    Contains(Joined(p), CODE_SIGNATURE)
  }

  function PathOf(rule: Rule): Option<Path> {
    var p := Components(TrimRight(TrimLeft(rule.relativePath)));
    if Plain(p) then Some(p) else None
  }

  // The step a rule amounts to, if any; None when its path is invalid.
  function StepsOfRule(rule: Rule, delta: Tree): (steps: Option<seq<Step>>)
    ensures steps.Some? ==> forall s :: s in steps.value ==> s.path != [] && s.delta == delta
  {
    if PathOf(rule).None? then None
    else if Skipped(PathOf(rule).value) then Some([])
    else Some([Step(KindOf(rule.kind), PathOf(rule).value, delta)])
  }

  function StepsOfRules(rules: seq<Rule>, delta: Tree): (steps: Option<seq<Step>>)
    ensures steps.Some? ==> forall s :: s in steps.value ==> s.path != [] && s.delta == delta
  {
    if rules == [] then Some([]) else
      var before, last := StepsOfRules(rules[..|rules| - 1], delta), StepsOfRule(rules[|rules| - 1], delta);
      if before.None? || last.None? then None else Some(before.value + last.value)
  }

  lemma OneRuleMore(rules: seq<Rule>, delta: Tree, i: nat, done: seq<Step>)
    requires i < |rules| && StepsOfRules(rules[..i], delta).Some? && StepsOfRule(rules[i], delta).Some?
    ensures StepsOfRules(rules[..i + 1], delta).Some?
    ensures done + StepsOfRules(rules[..i], delta).value + StepsOfRule(rules[i], delta).value
            == done + StepsOfRules(rules[..i + 1], delta).value
  {
    assert rules[..i + 1][..i] == rules[..i] && rules[..i + 1][i] == rules[i];
  }

  function StepsOf(actions: seq<Action>): (steps: Option<seq<Step>>)
    ensures steps.Some? ==> forall s :: s in steps.value ==> s.path != []
  {
    if actions == [] then Some([]) else
      var before, last := StepsOf(actions[..|actions| - 1]), actions[|actions| - 1];
      if before.None? || !last.Patch? then before
      else if last.rules.None? || StepsOfRules(last.rules.value, last.delta).None? then None
      else Some(before.value + StepsOfRules(last.rules.value, last.delta).value)
  }

  // The last version action decides.
  function VersionOf(actions: seq<Action>): Option<nat> {
    if actions == [] then None
    else if actions[|actions| - 1].Version? then Some(actions[|actions| - 1].version)
    else VersionOf(actions[..|actions| - 1])
  }

  function VersionText(version: nat): Content {
    "&game=" + Decimal.Numeral(version)
  }

  function Versioned(game: Tree, version: Option<nat>): Tree {
    if version.None? then game else game[VERSION := File(VersionText(version.value))]
  }

  // -----------------------------------------------------------------------------------
  // What the rules say, in their own words
  // -----------------------------------------------------------------------------------

  // A rule with the deltas that came with it.
  datatype Listed = Listed(rule: Rule, delta: Tree)

  function WithDelta(rules: seq<Rule>, delta: Tree): (listed: seq<Listed>)
    ensures |listed| == |rules| && forall k :: 0 <= k < |rules| ==> listed[k] == Listed(rules[k], delta)
  {
    seq(|rules|, k requires 0 <= k < |rules| => Listed(rules[k], delta))
  }

  // The rules of all patch actions, in order.
  function AllRules(actions: seq<Action>): seq<Listed> {
    if actions == [] then [] else
      var last := actions[|actions| - 1];
      AllRules(actions[..|actions| - 1])
      + if last.Patch? && last.rules.Some? then WithDelta(last.rules.value, last.delta) else []
  }

  predicate FoundAt(s: string, part: string, i: nat) {
    i + |part| <= |s| && s[i..i + |part|] == part
  }

  ghost predicate InSignature(p: Path) {
    exists i: nat :: FoundAt(Joined(p), "_CodeSignature", i)
  }

  // The path that a rule is about, if it is about any.
  ghost predicate IsAbout(l: Listed, p: Path) {
    PathOf(l.rule) == Some(p) && !InSignature(p)
  }

  // What one rule about a path makes of what the rules before it made, given what is installed.
  ghost function Said(rsync: Rsync, l: Listed, p: Path, staged: Option<Node>, installed: Option<Node>): Option<Node> {
    if l.rule.kind == "patch" then
      var basis := if staged.Some? then staged else installed;
      if basis.Some? && basis.value.File? && p in l.delta && l.delta[p].File?
         && rsync(basis.value.content, l.delta[p].content).Some?
      then Some(File(rsync(basis.value.content, l.delta[p].content).value)) else None
    else if l.rule.kind == "create" then if staged.Some? then staged else Some(File(""))
    else if l.rule.kind == "copy" then if p in l.delta then Some(l.delta[p]) else None
    else staged
  }

  ghost function SaidByAll(rsync: Rsync, ls: seq<Listed>, p: Path, installed: Option<Node>): Option<Node> {
    if ls == [] then None else
      var staged, last := SaidByAll(rsync, ls[..|ls| - 1], p, installed), ls[|ls| - 1];
      if IsAbout(last, p) then Said(rsync, last, p, staged, installed) else staged
  }

  ghost predicate SaidDeleted(ls: seq<Listed>, p: Path) {
    exists l :: l in ls && l.rule.kind == "delete" && IsAbout(l, p)
  }

  // Whether a rule about another path can change what becomes of p.
  ghost predicate Disturbs(l: Listed, p: Path) {
    exists q :: IsAbout(l, q) && q != [] &&
                if l.rule.kind == "patch" then p < q || q[..|q| - 1] + [q[|q| - 1] + ".patching"] <= p
                else if l.rule.kind == "create" || l.rule.kind == "copy" then p < q || q < p
                else l.rule.kind == "delete" && q < p
  }

  ghost predicate IsLastVersion(actions: seq<Action>, i: nat) {
    i < |actions| && actions[i].Version? && forall j :: i < j < |actions| ==> !actions[j].Version?
  }

  // The content of a path after the plan: what the rules about it staged, or else nothing when one
  // of them deletes it, or else what it was. The version file is written over.
  ghost predicate AsRuledAt(rsync: Rsync, before: Tree, actions: seq<Action>, after: Tree, p: Path) {
    var ls := AllRules(actions);
    var said := SaidByAll(rsync, ls, p, At(before, p));
    if p == [".version"] && exists i: nat :: IsLastVersion(actions, i) then
      forall i: nat :: IsLastVersion(actions, i) ==> At(after, p) == Some(File("&game=" + Decimal.Numeral(actions[i].version)))
    else At(after, p) == if said.Some? then said else if SaidDeleted(ls, p) then None else At(before, p)
  }

  ghost predicate Undisturbed(actions: seq<Action>, p: Path) {
    p != [] && forall l :: l in AllRules(actions) ==> !Disturbs(l, p)
  }

  ghost predicate AsRuled(rsync: Rsync, before: Tree, actions: seq<Action>, after: Tree) {
    forall p :: Undisturbed(actions, p) ==> AsRuledAt(rsync, before, actions, after, p)
  }

  // ---- The steps are what the rules say ----

  lemma {:induction false} ContainsPart(s: string, part: string)
    ensures Contains(s, part) <==> exists i: nat :: FoundAt(s, part, i)
  {
    if part <= s {
      assert FoundAt(s, part, 0);
    } else if s != [] {
      ContainsPart(s[1..], part);
      if i: nat :| FoundAt(s[1..], part, i) {
        assert s[i + 1..i + 1 + |part|] == s[1..][i..i + |part|];
        assert FoundAt(s, part, i + 1);
      }
      if i: nat :| FoundAt(s, part, i) {
        if i > 0 {
          assert s[1..][i - 1..i - 1 + |part|] == s[i..i + |part|];
          assert FoundAt(s[1..], part, i - 1);
        }
      }
    }
  }

  lemma SkippedIsSignature(p: Path)
    ensures Skipped(p) <==> InSignature(p)
  {
    ContainsPart(Joined(p), CODE_SIGNATURE);
  }

  function StepsOfListed(ls: seq<Listed>): Option<seq<Step>> {
    if ls == [] then Some([]) else
      var before, last := StepsOfListed(ls[..|ls| - 1]), StepsOfRule(ls[|ls| - 1].rule, ls[|ls| - 1].delta);
      if before.None? || last.None? then None else Some(before.value + last.value)
  }

  lemma ListedOne(ls: seq<Listed>, l: Listed, all: seq<Listed>)
    requires StepsOfListed(ls).Some? && StepsOfRule(l.rule, l.delta).Some? && all == ls + [l]
    ensures StepsOfListed(all) == Some(StepsOfListed(ls).value + StepsOfRule(l.rule, l.delta).value)
  {
    assert all[..|all| - 1] == ls && all[|all| - 1] == l;
  }

  lemma Appended(ls: seq<Listed>, rules: seq<Rule>, delta: Tree, all: seq<Listed>)
    requires rules != [] && all == ls + WithDelta(rules, delta)
    ensures all == ls + WithDelta(rules[..|rules| - 1], delta) + [Listed(rules[|rules| - 1], delta)]
  {
    assert WithDelta(rules, delta) == WithDelta(rules[..|rules| - 1], delta) + [Listed(rules[|rules| - 1], delta)];
  }

  lemma {:induction false} ListedMore(ls: seq<Listed>, rules: seq<Rule>, delta: Tree)
    requires StepsOfListed(ls).Some? && StepsOfRules(rules, delta).Some?
    ensures StepsOfListed(ls + WithDelta(rules, delta)) ==
            Some(StepsOfListed(ls).value + StepsOfRules(rules, delta).value)
  {
    var all := ls + WithDelta(rules, delta);
    if rules == [] {
      assert all == ls && StepsOfListed(ls).value + [] == StepsOfListed(ls).value;
    } else {
      var n := |rules| - 1;
      var front, last := StepsOfRules(rules[..n], delta).value, StepsOfRule(rules[n], delta).value;
      ListedMore(ls, rules[..n], delta);
      Appended(ls, rules, delta, all);
      ListedOne(ls + WithDelta(rules[..n], delta), Listed(rules[n], delta), all);
      assert StepsOfListed(ls).value + front + last == StepsOfListed(ls).value + (front + last);
    }
  }

  lemma {:induction false} StepsAreListed(actions: seq<Action>)
    requires StepsOf(actions).Some?
    ensures StepsOfListed(AllRules(actions)) == StepsOf(actions)
  {
    if actions != [] {
      var before, last := actions[..|actions| - 1], actions[|actions| - 1];
      StepsAreListed(before);
      if last.Patch? {
        ListedMore(AllRules(before), last.rules.value, last.delta);
      } else {
        assert AllRules(before) + [] == AllRules(before);
      }
    }
  }

  lemma NamedMore(rsync: Rsync, p: Path, installed: Option<Node>, steps: seq<Step>, s: Step)
    ensures NamedSteps(rsync, p, installed, steps + [s]) ==
            var staged := NamedSteps(rsync, p, installed, steps);
            if s.path == p then NamedStep(rsync, staged, installed, s) else staged
  {
    assert (steps + [s])[..|steps|] == steps;
  }

  lemma SaidByRule(rsync: Rsync, l: Listed, p: Path, staged: Option<Node>, installed: Option<Node>)
    ensures NamedStep(rsync, staged, installed, Step(KindOf(l.rule.kind), p, l.delta)) == Said(rsync, l, p, staged, installed)
  {
  }

  lemma {:induction false} NamedIsSaid(rsync: Rsync, ls: seq<Listed>, p: Path, installed: Option<Node>)
    requires StepsOfListed(ls).Some?
    ensures NamedSteps(rsync, p, installed, StepsOfListed(ls).value) == SaidByAll(rsync, ls, p, installed)
  {
    if ls != [] {
      var before, last := ls[..|ls| - 1], ls[|ls| - 1];
      var q := PathOf(last.rule).value;
      NamedIsSaid(rsync, before, p, installed);
      SkippedIsSignature(q);
      if Skipped(q) {
        assert StepsOfListed(before).value + [] == StepsOfListed(before).value;
      } else {
        NamedMore(rsync, p, installed, StepsOfListed(before).value, Step(KindOf(last.rule.kind), q, last.delta));
        SaidByRule(rsync, last, p, SaidByAll(rsync, before, p, installed), installed);
      }
    }
  }

  // Every step comes from a rule about its path.
  lemma {:induction false} RuleOfStep(ls: seq<Listed>, s: Step) returns (l: Listed)
    requires StepsOfListed(ls).Some? && s in StepsOfListed(ls).value
    ensures l in ls && IsAbout(l, s.path) && s == Step(KindOf(l.rule.kind), s.path, l.delta)
  {
    var before, last := ls[..|ls| - 1], ls[|ls| - 1];
    if s in StepsOfListed(before).value {
      l := RuleOfStep(before, s);
    } else {
      l := last;
      SkippedIsSignature(PathOf(last.rule).value);
    }
  }

  lemma {:induction false} StepOfRule(ls: seq<Listed>, l: Listed, p: Path)
    requires StepsOfListed(ls).Some? && l in ls && IsAbout(l, p)
    ensures Step(KindOf(l.rule.kind), p, l.delta) in StepsOfListed(ls).value
  {
    var before, last := ls[..|ls| - 1], ls[|ls| - 1];
    if l in before {
      StepOfRule(before, l, p);
    } else {
      assert l == last;
      SkippedIsSignature(p);
    }
  }

  lemma DeletesAreSaid(ls: seq<Listed>, p: Path)
    requires StepsOfListed(ls).Some?
    ensures Deletes(StepsOfListed(ls).value, p) <==> SaidDeleted(ls, p)
  {
    var steps := StepsOfListed(ls).value;
    if s :| s in steps && s.kind == DeleteKind && s.path == p {
      var l := RuleOfStep(ls, s);
    }
    if l :| l in ls && l.rule.kind == "delete" && IsAbout(l, p) {
      StepOfRule(ls, l, p);
    }
  }

  // A step that reaches a path comes from a rule that disturbs it.
  lemma ReachingDisturbs(l: Listed, p: Path, q: Path)
    requires IsAbout(l, q) && q != [] && Reaches(p, KindOf(l.rule.kind), q)
    ensures Disturbs(l, p)
  {
  }

  lemma UndisturbedIsAlone(ls: seq<Listed>, p: Path)
    requires StepsOfListed(ls).Some? && forall l :: l in ls ==> !Disturbs(l, p)
    requires forall s :: s in StepsOfListed(ls).value ==> s.path != [] && WellFormed(s.delta)
    ensures LeavesAlone(StepsOfListed(ls).value, p)
  {
    forall s | s in StepsOfListed(ls).value ensures !Reaches(p, s.kind, s.path) {
      var l := RuleOfStep(ls, s);
      if Reaches(p, s.kind, s.path) {
        ReachingDisturbs(l, p, s.path);
      }
    }
  }

  lemma {:induction false} LastVersion(actions: seq<Action>)
    ensures VersionOf(actions).Some? <==> exists i: nat :: IsLastVersion(actions, i)
    ensures forall i: nat :: IsLastVersion(actions, i) ==> VersionOf(actions) == Some(actions[i].version)
  {
    if actions != [] {
      var n := |actions| - 1;
      var before := actions[..n];
      LastVersion(before);
      if actions[n].Version? {
        assert IsLastVersion(actions, n);
      } else {
        forall i: nat ensures IsLastVersion(actions, i) <==> IsLastVersion(before, i) {
          assert i < n ==> before[i] == actions[i];
          if IsLastVersion(before, i) {
            forall j | i < j < |actions| ensures !actions[j].Version? {
              assert j < n ==> before[j] == actions[j];
            }
          }
        }
      }
    }
  }

  // So a finished plan leaves every path that no other rule disturbs as the rules about it say.
  lemma FinalIsAsRuled(rsync: Rsync, game: Tree, actions: seq<Action>)
    requires WellFormed(game) && StepsOf(actions).Some? && FinalTree(rsync, game, StepsOf(actions).value).Some?
    requires forall s :: s in StepsOf(actions).value ==> s.path != [] && WellFormed(s.delta)
    ensures AsRuled(rsync, game, actions,
                    Versioned(FinalTree(rsync, game, StepsOf(actions).value).value, VersionOf(actions)))
  {
    forall p | Undisturbed(actions, p)
      ensures AsRuledAt(rsync, game, actions,
                        Versioned(FinalTree(rsync, game, StepsOf(actions).value).value, VersionOf(actions)), p)
    {
      FinalIsAsRuledAt(rsync, game, actions, p);
    }
  }

  lemma FinalIsAsRuledAt(rsync: Rsync, game: Tree, actions: seq<Action>, p: Path)
    requires WellFormed(game) && StepsOf(actions).Some? && FinalTree(rsync, game, StepsOf(actions).value).Some?
    requires forall s :: s in StepsOf(actions).value ==> s.path != [] && WellFormed(s.delta)
    requires Undisturbed(actions, p)
    ensures AsRuledAt(rsync, game, actions,
                      Versioned(FinalTree(rsync, game, StepsOf(actions).value).value, VersionOf(actions)), p)
  {
    var ls, steps := AllRules(actions), StepsOf(actions).value;
    StepsAreListed(actions);
    UndisturbedIsAlone(ls, p);
    FinalAtPath(rsync, game, steps, p);
    NamedIsSaid(rsync, ls, p, At(game, p));
    DeletesAreSaid(ls, p);
    LastVersion(actions);
  }
}
