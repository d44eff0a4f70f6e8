// What an update plan does to a game tree: the rules staged one after another, the staged tree
// overlaid on the installed one, the deferred deletes applied last.
module UpdatePlan {
  import opened Options
  import opened Disk

  datatype Kind = PatchKind | CreateKind | DeleteKind | CopyKind | UnknownKind

  // One rule, with the directory of deltas it reads from.
  datatype Step = Step(kind: Kind, path: Path, delta: Tree)

  // Applying a delta to a basis, which may fail.
  type Rsync = (Content, Content) -> Option<Content>

  // The file a patch is written to before it takes its target's place.
  function PatchingName(p: Path): Path
    requires p != []
  {
    Parent(p) + [p[|p| - 1] + ".patching"]
  }

  function Patched(rsync: Rsync, basis: Option<Node>, delta: Option<Node>): Option<Content> {
    if basis.Some? && basis.value.File? && delta.Some? && delta.value.File?
    then rsync(basis.value.content, delta.value.content) else None
  }

  // The staging tree after one rule, None when the rule cannot be carried out.
  function Staged(rsync: Rsync, stage: Tree, game: Tree, step: Step): Option<Tree>
    requires step.path != []
  {
    var p := step.path;
    match step.kind
    case PatchKind =>
      var result := Patched(rsync, if p in stage then At(stage, p) else At(game, p), At(step.delta, p));
      if !CanMakeDirs(stage, Parent(p)) || result.None? then None
      else Some(Removed(Removed(WithDirs(stage, Parent(p)), PatchingName(p)), p)[p := File(result.value)])
    case CreateKind =>
      if p in stage then Some(stage)
      else if !CanMakeDirs(stage, Parent(p)) then None
      else Some(WithDirs(stage, Parent(p))[p := File("")])
    case CopyKind =>
      if !CanMakeDirs(stage, Parent(p)) || p !in step.delta then None
      else Some(Copied(Removed(WithDirs(stage, Parent(p)), p), step.delta, p))
    case DeleteKind => Some(stage)
    case UnknownKind => Some(stage)
  }

  function StagedAll(rsync: Rsync, game: Tree, steps: seq<Step>): Option<Tree>
    requires forall s :: s in steps ==> s.path != []
  {
    if steps == [] then Some(EMPTY_TREE) else
      var before := StagedAll(rsync, game, steps[..|steps| - 1]);
      if before.None? then None else Staged(rsync, before.value, game, steps[|steps| - 1])
  }

  function DeletesOf(steps: seq<Step>): seq<Path> {
    if steps == [] then [] else
      DeletesOf(steps[..|steps| - 1]) + if steps[|steps| - 1].kind == DeleteKind then [steps[|steps| - 1].path] else []
  }

  // The deletes that apply remove what lies at or under their paths; a staged replacement
  // keeps its path from being deleted.
  function Deleted(t: Tree, stage: Tree, deletes: seq<Path>): Tree {
    map q | q in t && (forall d :: d in deletes && d !in stage ==> !(d <= q)) :: t[q]
  }

  function FinalTree(rsync: Rsync, game: Tree, steps: seq<Step>): Option<Tree>
    requires forall s :: s in steps ==> s.path != []
  {
    var stage := StagedAll(rsync, game, steps);
    if stage.None? || Clashes(stage.value, game) then None
    else Some(Deleted(Overlay(stage.value, game), stage.value, DeletesOf(steps)))
  }

  // -----------------------------------------------------------------------------------
  // One path at a time
  // -----------------------------------------------------------------------------------

  predicate Above(a: Path, b: Path) {
    a <= b && a != b
  }

  // Whether a rule of this kind for path q can change what the rules that name p make of p. A
  // delete takes away what lies under it; a new file or a copy hides or replaces what lies under
  // it, and needs directories above it; a patch needs directories above it too, and sweeps the
  // name it writes to, but it finds a file to patch only where nothing lies under it.
  predicate Reaches(p: Path, kind: Kind, q: Path)
    requires q != []
  {
    match kind
    case PatchKind => Above(p, q) || PatchingName(q) <= p
    case CreateKind => Above(p, q) || Above(q, p)
    case CopyKind => Above(p, q) || Above(q, p)
    case DeleteKind => Above(q, p)
    case UnknownKind => false
  }

  // A plan over trees, none of whose rules reaches p.
  ghost predicate LeavesAlone(steps: seq<Step>, p: Path) {
    forall s :: s in steps ==> s.path != [] && WellFormed(s.delta) && !Reaches(p, s.kind, s.path)
  }

  // What a rule that names a path makes of what is staged there, given what is installed.
  function NamedStep(rsync: Rsync, staged: Option<Node>, installed: Option<Node>, step: Step): Option<Node> {
    match step.kind
    case PatchKind =>
      var result := Patched(rsync, if staged.Some? then staged else installed, At(step.delta, step.path));
      if result.None? then None else Some(File(result.value))
    case CreateKind => if staged.Some? then staged else Some(File(""))
    case CopyKind => At(step.delta, step.path)
    case DeleteKind => staged
    case UnknownKind => staged
  }

  function NamedSteps(rsync: Rsync, p: Path, installed: Option<Node>, steps: seq<Step>): Option<Node> {
    if steps == [] then None else
      var staged := NamedSteps(rsync, p, installed, steps[..|steps| - 1]);
      var last := steps[|steps| - 1];
      if last.path == p then NamedStep(rsync, staged, installed, last) else staged
  }

  // What is staged at p is what the rules naming it staged; or a patched file lies above p, which
  // then is neither staged nor installed.
  ghost predicate StagedAs(stage: Tree, game: Tree, p: Path, named: Option<Node>) {
    || (!Covered(stage, p) && At(stage, p) == named)
    || (Covered(stage, p) && named == None && p !in stage && p !in game)
  }

  // What one rule leaves at any path.
  lemma StagedNode(rsync: Rsync, stage: Tree, game: Tree, step: Step, q: Path)
    requires step.path != [] && Staged(rsync, stage, game, step).Some?
    ensures var r, after := step.path, Staged(rsync, stage, game, step).value;
            var below := if q <= Parent(r) then Some(Dir) else At(stage, q);
            var result := Patched(rsync, if r in stage then At(stage, r) else At(game, r), At(step.delta, r));
            match step.kind
            case PatchKind =>
              result.Some? && At(after, q) == if q == r then Some(File(result.value))
                                              else if r <= q || PatchingName(r) <= q then None else below
            case CreateKind =>
              At(after, q) == if r in stage then At(stage, q) else if q == r then Some(File("")) else below
            case CopyKind => At(after, q) == if r <= q then At(step.delta, q) else below
            case DeleteKind => after == stage
            case UnknownKind => after == stage
  {
    WithDirsAt(stage, Parent(step.path), q);
  }

  lemma ParentAbove(p: Path, r: Path)
    requires r != []
    ensures p <= Parent(r) <==> Above(p, r)
  {
    if p <= Parent(r) {
      PrefixTransitive(p, Parent(r), r);
    }
    if Above(p, r) {
      assert Parent(r)[..|p|] == r[..|p|] == p;
    }
  }

  lemma StagedOpen(rsync: Rsync, stage: Tree, game: Tree, step: Step, p: Path)
    requires step.path != [] && p != [] && !Covered(stage, p) && !Reaches(p, step.kind, step.path)
    requires step.kind == PatchKind ==> !Above(step.path, p)
    requires Staged(rsync, stage, game, step).Some?
    ensures var after := Staged(rsync, stage, game, step).value;
      && !Covered(after, p)
      && At(after, p) == if step.path == p then NamedStep(rsync, At(stage, p), At(game, p), step) else At(stage, p)
  {
    var after := Staged(rsync, stage, game, step).value;
    StagedNode(rsync, stage, game, step, p);
    ParentAbove(p, step.path);
    forall i | 0 <= i < |p| && p[..i] in after ensures after[p[..i]] == Dir {
      StagedAbove(rsync, stage, game, step, p, p[..i]);
    }
  }

  // Nothing but directories comes to lie above p.
  lemma StagedAbove(rsync: Rsync, stage: Tree, game: Tree, step: Step, p: Path, q: Path)
    requires step.path != [] && !Covered(stage, p) && !Reaches(p, step.kind, step.path) && Above(q, p)
    requires step.kind == PatchKind ==> !Above(step.path, p)
    requires Staged(rsync, stage, game, step).Some?
    ensures At(Staged(rsync, stage, game, step).value, q) in {None, Some(Dir)}
  {
    StagedNode(rsync, stage, game, step, q);
    assert p[..|q|] == q;
    PrefixTransitive(step.path, q, p);
  }

  // A patch above p finds an installed file, under which nothing lies.
  lemma PatchedAbove(rsync: Rsync, stage: Tree, game: Tree, step: Step, p: Path)
    requires step.kind == PatchKind && step.path != [] && Above(step.path, p) && WellFormed(game)
    requires WellFormed(stage) && !Covered(stage, p) && Staged(rsync, stage, game, step).Some?
    ensures var after := Staged(rsync, stage, game, step).value;
      p !in stage && p !in game && p !in after && Covered(after, p)
  {
    var q, after := step.path, Staged(rsync, stage, game, step).value;
    assert p[..|q|] == q;
    assert after[q] != Dir;
  }

  // What lies under a staged file stays out of reach.
  lemma StagedCovered(rsync: Rsync, stage: Tree, game: Tree, step: Step, p: Path)
    requires step.path != [] && p != [] && WellFormed(stage) && WellFormed(step.delta)
    requires Covered(stage, p) && !Reaches(p, step.kind, step.path) && Staged(rsync, stage, game, step).Some?
    ensures Covered(Staged(rsync, stage, game, step).value, p) && p !in Staged(rsync, stage, game, step).value
    ensures step.path == p ==> step.kind in {DeleteKind, UnknownKind}
  {
    var after := Staged(rsync, stage, game, step).value;
    var i :| 0 <= i < |p| && p[..i] in stage && stage[p[..i]] != Dir;
    var q := p[..i];
    CoverKept(rsync, stage, game, step, p, q);
    StagedWellFormed(rsync, stage, game, step);
    assert after[p[..i]] != Dir;
  }

  lemma NotBlocked(stage: Tree, d: Path, q: Path)
    requires CanMakeDirs(stage, d) && q in stage && stage[q] != Dir
    ensures !(q <= d)
  {
    assert |q| <= |d| ==> d[..|q|] != q;
  }

  lemma CoverKept(rsync: Rsync, stage: Tree, game: Tree, step: Step, p: Path, q: Path)
    requires step.path != [] && p != [] && WellFormed(stage) && Above(q, p) && q in stage && stage[q] != Dir
    requires !Reaches(p, step.kind, step.path) && Staged(rsync, stage, game, step).Some?
    ensures q in Staged(rsync, stage, game, step).value && Staged(rsync, stage, game, step).value[q] != Dir
    ensures step.path == p ==> step.kind in {DeleteKind, UnknownKind}
  {
    var r := step.path;
    assert p[..|q|] == q && p !in stage;
    if Above(r, q) {
      assert q[..|r|] == r && stage[r] == Dir;
    }
    if step.kind in {PatchKind, CreateKind, CopyKind} && !(step.kind == CreateKind && r in stage) {
      var parent := Parent(r);
      NotBlocked(stage, parent, q);
      WithDirsAt(stage, parent, q);
      PrefixTransitive(r, q, p);
      PrefixTransitive(PatchingName(r), q, p);
    }
  }

  lemma StagedAtPath(rsync: Rsync, stage: Tree, game: Tree, step: Step, p: Path, named: Option<Node>)
    requires step.path != [] && p != [] && WellFormed(stage) && WellFormed(game) && WellFormed(step.delta)
    requires !Reaches(p, step.kind, step.path) && StagedAs(stage, game, p, named)
    requires Staged(rsync, stage, game, step).Some?
    ensures StagedAs(Staged(rsync, stage, game, step).value, game, p,
                     if step.path == p then NamedStep(rsync, named, At(game, p), step) else named)
  {
    if Covered(stage, p) {
      StagedCovered(rsync, stage, game, step, p);
    } else if step.kind == PatchKind && Above(step.path, p) {
      PatchedAbove(rsync, stage, game, step, p);
    } else {
      StagedOpen(rsync, stage, game, step, p);
    }
  }

  lemma PrefixTransitive(a: Path, b: Path, c: Path)
    ensures a <= b && b <= c ==> a <= c
  {
  }

  lemma {:induction false} StagedAllAtPath(rsync: Rsync, game: Tree, steps: seq<Step>, p: Path)
    requires p != [] && WellFormed(game) && LeavesAlone(steps, p)
    requires StagedAll(rsync, game, steps).Some?
    ensures WellFormed(StagedAll(rsync, game, steps).value)
    ensures StagedAs(StagedAll(rsync, game, steps).value, game, p, NamedSteps(rsync, p, At(game, p), steps))
  {
    if steps != [] {
      var init, last := steps[..|steps| - 1], steps[|steps| - 1];
      assert forall s :: s in init ==> s in steps;
      assert last in steps;
      StagedAllAtPath(rsync, game, init, p);
      var stage := StagedAll(rsync, game, init).value;
      StagedAtPath(rsync, stage, game, last, p, NamedSteps(rsync, p, At(game, p), init));
      StagedWellFormed(rsync, stage, game, last);
    }
  }

  predicate Deletes(steps: seq<Step>, p: Path) {
    exists s :: s in steps && s.kind == DeleteKind && s.path == p
  }

  lemma {:induction false} DeletesOfSteps(steps: seq<Step>, p: Path)
    ensures p in DeletesOf(steps) <==> Deletes(steps, p)
  {
    if steps != [] {
      var init, last := steps[..|steps| - 1], steps[|steps| - 1];
      assert steps == init + [last];
      DeletesOfSteps(init, p);
    }
  }

  // What the rules that name a path make of it.
  function Expected(rsync: Rsync, game: Tree, steps: seq<Step>, p: Path): Option<Node> {
    var staged := NamedSteps(rsync, p, At(game, p), steps);
    if staged.Some? then staged else if Deletes(steps, p) then None else At(game, p)
  }

  // The installed content of a path depends only on the rules that name it, provided no other
  // rule reaches it: it is what those rules staged, or else nothing when one of them deletes it,
  // or else what it was.
  lemma FinalAtPath(rsync: Rsync, game: Tree, steps: seq<Step>, p: Path)
    requires p != [] && WellFormed(game) && LeavesAlone(steps, p)
    requires FinalTree(rsync, game, steps).Some?
    ensures At(FinalTree(rsync, game, steps).value, p) == Expected(rsync, game, steps, p)
  {
    StagedAllAtPath(rsync, game, steps, p);
    DeletesOfSteps(steps, p);
    var stage := StagedAll(rsync, game, steps).value;
    forall d | d in DeletesOf(steps) ensures d <= p ==> d == p {
      DeletesOfSteps(steps, d);
    }
  }

  // -----------------------------------------------------------------------------------
  // Every rule that reaches a path can change it
  // -----------------------------------------------------------------------------------

  // The only rules of a plan over trees that do not name p are of one kind and path.
  ghost predicate NamesOrIs(steps: seq<Step>, p: Path, kind: Kind, q: Path) {
    forall s :: s in steps ==>
      s.path != [] && WellFormed(s.delta) && (s.path == p || (s.kind == kind && s.path == q))
  }

  lemma OneRule(s: Step, p: Path)
    requires s.path != [] && WellFormed(s.delta)
    ensures NamesOrIs([s], p, s.kind, s.path)
  {
  }

  lemma TwoRules(s: Step, t: Step)
    requires s.path != [] && t.path != [] && WellFormed(s.delta) && WellFormed(t.delta)
    ensures NamesOrIs([s, t], s.path, t.kind, t.path) && NamesOrIs([s, t], t.path, s.kind, s.path)
  {
  }

  // Such a plan that completes and leaves something else at p than the rules naming it say.
  ghost predicate Differs(rsync: Rsync, game: Tree, steps: seq<Step>, p: Path, kind: Kind, q: Path) {
    && WellFormed(game) && NamesOrIs(steps, p, kind, q)
    && FinalTree(rsync, game, steps).Some?
    && At(FinalTree(rsync, game, steps).value, p) != Expected(rsync, game, steps, p)
  }

  // One node with the directories above it.
  function Only(p: Path, node: Node): Tree
    requires p != []
  {
    WithDirs(EMPTY_TREE, Parent(p))[p := node]
  }

  lemma OnlyAt(p: Path, node: Node, q: Path)
    requires p != []
    ensures At(Only(p, node), q) == if q == p then Some(node) else if Above(q, p) then Some(Dir) else None
  {
    WithDirsAt(EMPTY_TREE, Parent(p), q);
    if q <= Parent(p) {
      PrefixTransitive(q, Parent(p), p);
    }
    if Above(q, p) {
      assert Parent(p)[..|q|] == q;
    }
  }

  lemma OnlyIsTree(p: Path, node: Node)
    requires p != []
    ensures WellFormed(Only(p, node)) && WellFormed(EMPTY_TREE) && CanMakeDirs(EMPTY_TREE, Parent(p))
  {
    forall q, i | q in Only(p, node) && 0 <= i < |q| ensures At(Only(p, node), q[..i]) == Some(Dir) {
      OnlyAt(p, node, q);
      OnlyAt(p, node, q[..i]);
      assert At(Only(p, node), q).Some?;
      PrefixTransitive(q[..i], q, p);
    }
    OnlyAt(p, node, []);
  }

  lemma OneStep(rsync: Rsync, game: Tree, s: Step, p: Path)
    requires s.path != []
    ensures StagedAll(rsync, game, [s]) == Staged(rsync, EMPTY_TREE, game, s)
    ensures DeletesOf([s]) == if s.kind == DeleteKind then [s.path] else []
    ensures s.path != p ==> NamedSteps(rsync, p, At(game, p), [s]) == None && !Deletes([s], p)
    ensures s.path == p ==> NamedSteps(rsync, p, At(game, p), [s]) == NamedStep(rsync, None, At(game, p), s)
  {
    assert [s][..0] == [] && [s][0] == s;
  }

  lemma TwoSteps(rsync: Rsync, game: Tree, s: Step, t: Step, p: Path)
    requires s.path != [] && t.path != [] && Staged(rsync, EMPTY_TREE, game, s).Some?
    ensures StagedAll(rsync, game, [s, t]) == Staged(rsync, Staged(rsync, EMPTY_TREE, game, s).value, game, t)
    ensures DeletesOf([s, t]) == DeletesOf([s]) + if t.kind == DeleteKind then [t.path] else []
    ensures NamedSteps(rsync, p, At(game, p), [s, t]) ==
            var staged := NamedSteps(rsync, p, At(game, p), [s]);
            if t.path == p then NamedStep(rsync, staged, At(game, p), t) else staged
  {
    OneStep(rsync, game, s, p);
    assert [s, t][..1] == [s] && [s, t][1] == t;
  }

  // What a completing plan leaves at one path.
  function NodeAfter(stage: Tree, game: Tree, deletes: seq<Path>, p: Path): Option<Node> {
    if exists d :: d in deletes && d !in stage && d <= p then None
    else if p in stage then Some(stage[p])
    else if Covered(stage, p) then None else At(game, p)
  }

  lemma DiffersAt(rsync: Rsync, game: Tree, steps: seq<Step>, p: Path, kind: Kind, q: Path, stage: Tree)
    requires WellFormed(game) && NamesOrIs(steps, p, kind, q)
    requires StagedAll(rsync, game, steps) == Some(stage) && !Clashes(stage, game)
    requires NodeAfter(stage, game, DeletesOf(steps), p) != Expected(rsync, game, steps, p)
    ensures Differs(rsync, game, steps, p, kind, q)
  {
  }

  lemma NothingAfter(stage: Tree, game: Tree, deletes: seq<Path>, p: Path)
    requires p !in stage && (p in game ==> Covered(stage, p))
    ensures NodeAfter(stage, game, deletes, p) == None
  {
  }

  lemma CreatedThenPatched(rsync: Rsync, game: Tree, s: Step, t: Step)
    requires s.kind == CreateKind && t.kind == PatchKind && s.path != [] && t.path != [] && s.path != t.path
    requires Staged(rsync, EMPTY_TREE, game, s).Some?
    ensures Expected(rsync, game, [s, t], s.path) == Some(File(""))
  {
    OneStep(rsync, game, s, s.path);
    TwoSteps(rsync, game, s, t, s.path);
  }

  lemma PatchedThenDeleted(rsync: Rsync, game: Tree, s: Step, t: Step)
    requires s.kind == PatchKind && t.kind == DeleteKind && s.path != [] && t.path != [] && s.path != t.path
    requires Staged(rsync, EMPTY_TREE, game, s).Some?
    ensures Expected(rsync, game, [s, t], t.path) == None
  {
    OneStep(rsync, game, s, t.path);
    TwoSteps(rsync, game, s, t, t.path);
    assert [s, t][1] == t && Deletes([s, t], t.path);
  }

  lemma NoClashOnEmpty(stage: Tree)
    ensures At(stage, []) == Some(Dir) || [] !in stage ==> !Clashes(stage, EMPTY_TREE)
  {
  }

  lemma DeleteAbove(rsync: Rsync, p: Path, q: Path) returns (game: Tree, steps: seq<Step>)
    requires q != [] && Above(q, p)
    ensures Differs(rsync, game, steps, p, DeleteKind, q)
  {
    var s := Step(DeleteKind, q, EMPTY_TREE);
    game, steps := Only(p, File("")), [s];
    OnlyIsTree(p, File(""));
    OnlyAt(p, File(""), p);
    OnlyAt(p, File(""), []);
    OneStep(rsync, game, s, p);
    OneRule(s, p);
    assert q in DeletesOf(steps);
    DiffersAt(rsync, game, steps, p, DeleteKind, q, EMPTY_TREE);
  }

  lemma CreateAbove(rsync: Rsync, p: Path, q: Path) returns (game: Tree, steps: seq<Step>)
    requires q != [] && Above(q, p)
    ensures Differs(rsync, game, steps, p, CreateKind, q)
  {
    var s := Step(CreateKind, q, EMPTY_TREE);
    game, steps := Only(p, File("")), [s];
    OnlyIsTree(p, File(""));
    OnlyIsTree(q, File(""));
    OneStep(rsync, game, s, p);
    var stage := Only(q, File(""));
    assert StagedAll(rsync, game, steps) == Some(stage);
    NoClashOnPath(q, File(""), p, File(""));
    OnlyAt(q, File(""), q);
    OnlyAt(q, File(""), p);
    OnlyAt(p, File(""), p);
    assert Covered(stage, p) by {
      assert p[..|q|] == q;
    }
    OneRule(s, p);
    NothingAfter(stage, game, DeletesOf(steps), p);
    DiffersAt(rsync, game, steps, p, CreateKind, q, stage);
  }

  lemma NoClashOnPath(q: Path, over: Node, p: Path, under: Node)
    requires q != [] && q <= p && over != Dir
    ensures !Clashes(Only(q, over), Only(p, under))
  {
    forall r | r in Only(q, over) && Only(q, over)[r] == Dir ensures At(Only(p, under), r) == Some(Dir) {
      OnlyAt(q, over, r);
      OnlyAt(p, under, r);
      assert At(Only(q, over), r) == Some(Dir);
      PrefixTransitive(r, q, p);
    }
  }

  lemma CreateBelow(rsync: Rsync, p: Path, q: Path) returns (game: Tree, steps: seq<Step>)
    requires p != [] && Above(p, q)
    ensures Differs(rsync, game, steps, p, CreateKind, q)
  {
    var s := Step(CreateKind, q, EMPTY_TREE);
    game, steps := EMPTY_TREE, [s];
    OnlyIsTree(q, File(""));
    OneStep(rsync, game, s, p);
    OnlyAt(q, File(""), p);
    OnlyAt(q, File(""), []);
    OneRule(s, p);
    NoClashOnEmpty(Only(q, File("")));
    DiffersAt(rsync, game, steps, p, CreateKind, q, Only(q, File("")));
  }

  lemma CopyOver(rsync: Rsync, p: Path, q: Path) returns (game: Tree, steps: seq<Step>)
    requires p != [] && q != [] && (Above(p, q) || Above(q, p))
    ensures Differs(rsync, game, steps, p, CopyKind, q)
  {
    var deep := if Above(p, q) then q else p;
    var s := Step(CopyKind, q, Only(deep, File("")));
    game, steps := EMPTY_TREE, [s];
    var stage := CopyStaged(rsync, game, s, deep, p);
    OnlyIsTree(deep, File(""));
    OneStep(rsync, game, s, p);
    OneRule(s, p);
    NoClashOnEmpty(stage);
    DiffersAt(rsync, game, steps, p, CopyKind, q, stage);
  }

  lemma CopyStaged(rsync: Rsync, game: Tree, s: Step, deep: Path, p: Path) returns (stage: Tree)
    requires s.kind == CopyKind && s.path != [] && p != [] && (Above(p, s.path) || Above(s.path, p))
    requires deep == (if Above(p, s.path) then s.path else p) && s.delta == Only(deep, File(""))
    ensures Staged(rsync, EMPTY_TREE, game, s) == Some(stage) && At(stage, p).Some? && At(stage, []) == Some(Dir)
  {
    var q := s.path;
    var dirs := WithDirs(EMPTY_TREE, Parent(q));
    stage := Copied(Removed(dirs, q), s.delta, q);
    OnlyIsTree(q, File(""));
    OnlyAt(deep, File(""), q);
    OnlyAt(deep, File(""), p);
    WithDirsAt(EMPTY_TREE, Parent(q), p);
    WithDirsAt(EMPTY_TREE, Parent(q), []);
    if Above(p, q) {
      assert Parent(q)[..|p|] == p;
    }
  }

  // Patching an installed file with nothing yet staged at its path, nor a file above it.
  lemma PatchStaged(rsync: Rsync, stage: Tree, q: Path, basis: Content, delta: Content)
    requires q != [] && rsync(basis, delta).Some? && CanMakeDirs(stage, Parent(q)) && q !in stage
    ensures var s := Step(PatchKind, q, Only(q, File(delta)));
            Staged(rsync, stage, Only(q, File(basis)), s) ==
            Some(Removed(Removed(WithDirs(stage, Parent(q)), PatchingName(q)), q)[q := File(rsync(basis, delta).value)])
  {
    OnlyAt(q, File(basis), q);
    OnlyAt(q, File(delta), q);
  }

  lemma PatchBelow(rsync: Rsync, basis: Content, delta: Content, p: Path, q: Path) returns (game: Tree, steps: seq<Step>)
    requires p != [] && Above(p, q) && rsync(basis, delta).Some?
    ensures Differs(rsync, game, steps, p, PatchKind, q)
  {
    var s, t := Step(PatchKind, q, Only(q, File(delta))), Step(DeleteKind, p, EMPTY_TREE);
    game, steps := Only(q, File(basis)), [s, t];
    OnlyIsTree(q, File(basis));
    OnlyIsTree(q, File(delta));
    PatchStaged(rsync, EMPTY_TREE, q, basis, delta);
    TwoSteps(rsync, game, s, t, p);
    OneStep(rsync, game, s, p);
    var stage := Staged(rsync, EMPTY_TREE, game, s).value;
    PatchOnEmpty(q, rsync(basis, delta).value, stage);
    NoClashOnPath(q, File(rsync(basis, delta).value), q, File(basis));
    OnlyAt(q, File(rsync(basis, delta).value), p);
    PatchedThenDeleted(rsync, game, s, t);
    TwoRules(s, t);
    assert NodeAfter(stage, game, DeletesOf(steps), p) == Some(Dir);
    DiffersAt(rsync, game, steps, p, PatchKind, q, stage);
  }

  // The first patch of a plan stages its file alone.
  lemma PatchOnEmpty(q: Path, content: Content, stage: Tree)
    requires q != []
    requires stage == Removed(Removed(WithDirs(EMPTY_TREE, Parent(q)), PatchingName(q)), q)[q := File(content)]
    ensures stage == Only(q, File(content))
  {
    var dirs := WithDirs(EMPTY_TREE, Parent(q));
    forall r | r in dirs ensures !(q <= r) && !(PatchingName(q) <= r) {
      WithDirsAt(EMPTY_TREE, Parent(q), r);
      assert At(dirs, r).Some?;
    }
  }

  lemma PatchTemporary(rsync: Rsync, basis: Content, delta: Content, p: Path, q: Path)
    returns (game: Tree, steps: seq<Step>)
    requires q != [] && PatchingName(q) <= p && rsync(basis, delta).Some?
    ensures Differs(rsync, game, steps, p, PatchKind, q)
  {
    var s, t := Step(CreateKind, p, EMPTY_TREE), Step(PatchKind, q, Only(q, File(delta)));
    game, steps := Only(q, File(basis)), [s, t];
    var staged := Only(p, File(""));
    OnlyIsTree(p, File(""));
    OnlyIsTree(q, File(basis));
    OnlyIsTree(q, File(delta));
    TemporaryApart(p, q);
    PatchStaged(rsync, staged, q, basis, delta);
    OneStep(rsync, game, s, p);
    TwoSteps(rsync, game, s, t, p);
    CreatedThenPatched(rsync, game, s, t);
    var stage := Staged(rsync, staged, game, t).value;
    TemporarySwept(p, q, rsync(basis, delta).value, stage, basis);
    NothingAfter(stage, game, DeletesOf(steps), p);
    TwoRules(s, t);
    DiffersAt(rsync, game, steps, p, PatchKind, q, stage);
  }

  lemma TemporaryApart(p: Path, q: Path)
    requires q != [] && PatchingName(q) <= p
    ensures p != [] && p != q && !(q <= p) && !(p <= q) && Above(Parent(q), p)
    ensures q !in Only(p, File("")) && CanMakeDirs(Only(p, File("")), Parent(q))
  {
    assert PatchingName(q)[|q| - 1] != q[|q| - 1];
    assert Parent(q) == PatchingName(q)[..|q| - 1] == p[..|q| - 1];
    OnlyAt(p, File(""), q);
    assert At(Only(p, File("")), q) == None;
    forall i | 0 <= i <= |Parent(q)| ensures At(Only(p, File("")), Parent(q)[..i]) == Some(Dir) {
      OnlyAt(p, File(""), Parent(q)[..i]);
      PrefixTransitive(Parent(q)[..i], Parent(q), p);
    }
  }

  lemma TemporarySwept(p: Path, q: Path, content: Content, stage: Tree, basis: Content)
    requires q != [] && PatchingName(q) <= p && p != []
    requires stage ==
             Removed(Removed(WithDirs(Only(p, File("")), Parent(q)), PatchingName(q)), q)[q := File(content)]
    ensures p !in stage && p !in Only(q, File(basis)) && !Clashes(stage, Only(q, File(basis)))
  {
    var under := Only(q, File(basis));
    TemporaryApart(p, q);
    OnlyAt(q, File(basis), p);
    assert At(under, p) == None;
    forall r | r in stage && stage[r] == Dir ensures At(under, r) == Some(Dir) || r !in under {
      OnlyAt(q, File(basis), r);
    }
  }

  // So a rule for another path reaches p exactly when it is, in some plan, the only rule not
  // naming p and p does not become what the rules naming it say; whatever is patched.
  lemma ReachesExactly(rsync: Rsync, basis: Content, delta: Content, p: Path, kind: Kind, q: Path)
    requires p != [] && q != [] && p != q && rsync(basis, delta).Some?
    ensures Reaches(p, kind, q) <==> exists game, steps :: Differs(rsync, game, steps, p, kind, q)
  {
    if Reaches(p, kind, q) {
      var game, steps := DifferingPlan(rsync, basis, delta, p, kind, q);
    } else {
      forall game, steps ensures !Differs(rsync, game, steps, p, kind, q) {
        if Differs(rsync, game, steps, p, kind, q) {
          NamedNeverReaches(p);
          FinalAtPath(rsync, game, steps, p);
          assert false;
        }
      }
    }
  }

  lemma NamedNeverReaches(p: Path)
    requires p != []
    ensures forall kind :: !Reaches(p, kind, p)
  {
    assert PatchingName(p)[|p| - 1] != p[|p| - 1];
  }

  lemma DifferingPlan(rsync: Rsync, basis: Content, delta: Content, p: Path, kind: Kind, q: Path)
    returns (game: Tree, steps: seq<Step>)
    requires p != [] && q != [] && p != q && rsync(basis, delta).Some? && Reaches(p, kind, q)
    ensures Differs(rsync, game, steps, p, kind, q)
  {
    match kind
    case PatchKind =>
      if Above(p, q) {
        game, steps := PatchBelow(rsync, basis, delta, p, q);
      } else {
        game, steps := PatchTemporary(rsync, basis, delta, p, q);
      }
    case CreateKind =>
      if Above(p, q) {
        game, steps := CreateBelow(rsync, p, q);
      } else {
        game, steps := CreateAbove(rsync, p, q);
      }
    case CopyKind => game, steps := CopyOver(rsync, p, q);
    case DeleteKind => game, steps := DeleteAbove(rsync, p, q);
  }

  // Copying a file over a directory takes a staged file under it away as well.
  lemma RelatedRulesInterfere(rsync: Rsync)
    ensures var file := EMPTY_TREE[["a"] := File("1")];
            var nested := EMPTY_TREE[["a"] := Dir][["a", "b"] := File("2")];
            var steps := [Step(CopyKind, ["a", "b"], nested), Step(CopyKind, ["a"], file)];
            && FinalTree(rsync, EMPTY_TREE, steps).Some?
            && NamedSteps(rsync, ["a", "b"], None, steps) == Some(File("2"))
            && ["a", "b"] !in FinalTree(rsync, EMPTY_TREE, steps).value
  {
    var file := EMPTY_TREE[["a"] := File("1")];
    var nested := EMPTY_TREE[["a"] := Dir][["a", "b"] := File("2")];
    var first, second := Step(CopyKind, ["a", "b"], nested), Step(CopyKind, ["a"], file);
    var one := Staged(rsync, EMPTY_TREE, EMPTY_TREE, first).value;
    var two := CopiedOver(rsync, one, second, ["a", "b"]);
    OneStep(rsync, EMPTY_TREE, first, ["a", "b"]);
    TwoSteps(rsync, EMPTY_TREE, first, second, ["a", "b"]);
    NoClashOnEmpty(two);
  }

  lemma CopiedOver(rsync: Rsync, stage: Tree, s: Step, p: Path) returns (after: Tree)
    requires s.kind == CopyKind && |s.path| == 1 && At(stage, []) == Some(Dir) && s.path in s.delta
    requires s.path <= p && p !in s.delta
    ensures Staged(rsync, stage, EMPTY_TREE, s) == Some(after) && p !in after && At(after, []) == Some(Dir)
  {
    after := Staged(rsync, stage, EMPTY_TREE, s).value;
    WithDirsAt(stage, [], []);
  }

  // -----------------------------------------------------------------------------------
  // Deletes are deferred
  // -----------------------------------------------------------------------------------

  function WithoutDeletes(steps: seq<Step>): seq<Step> {
    if steps == [] then [] else
      WithoutDeletes(steps[..|steps| - 1]) + if steps[|steps| - 1].kind == DeleteKind then [] else [steps[|steps| - 1]]
  }

  lemma StagedLast(rsync: Rsync, game: Tree, steps: seq<Step>, last: Step)
    requires (forall s :: s in steps ==> s.path != []) && last.path != []
    ensures StagedAll(rsync, game, steps + [last]) ==
            var before := StagedAll(rsync, game, steps);
            if before.None? then None else Staged(rsync, before.value, game, last)
  {
    var all := steps + [last];
    assert all[..|all| - 1] == steps && all[|all| - 1] == last;
  }

  lemma {:induction false} DeletesDoNotStage(rsync: Rsync, game: Tree, steps: seq<Step>)
    requires forall s :: s in steps ==> s.path != []
    ensures forall s :: s in WithoutDeletes(steps) ==> s.path != []
    ensures StagedAll(rsync, game, steps) == StagedAll(rsync, game, WithoutDeletes(steps))
  {
    if steps != [] {
      var init, last := steps[..|steps| - 1], steps[|steps| - 1];
      assert forall s :: s in init ==> s in steps;
      assert last in steps;
      DeletesDoNotStage(rsync, game, init);
      if last.kind == DeleteKind {
        assert WithoutDeletes(steps) == WithoutDeletes(init);
      } else {
        StagedLast(rsync, game, WithoutDeletes(init), last);
      }
    }
  }

  // Where in the plan a delete rule stands makes no difference to the final tree, nor does
  // how often it is repeated.
  lemma DeletesMayMove(rsync: Rsync, game: Tree, steps: seq<Step>, moved: seq<Step>)
    requires (forall s :: s in steps ==> s.path != []) && forall s :: s in moved ==> s.path != []
    requires WithoutDeletes(steps) == WithoutDeletes(moved)
    requires forall p :: Deletes(steps, p) <==> Deletes(moved, p)
    ensures FinalTree(rsync, game, steps) == FinalTree(rsync, game, moved)
  {
    DeletesDoNotStage(rsync, game, steps);
    DeletesDoNotStage(rsync, game, moved);
    forall p ensures p in DeletesOf(steps) <==> p in DeletesOf(moved) {
      DeletesOfSteps(steps, p);
      DeletesOfSteps(moved, p);
    }
    var stage := StagedAll(rsync, game, steps);
    if stage.Some? {
      SameDeleted(Overlay(stage.value, game), stage.value, DeletesOf(steps), DeletesOf(moved));
    }
  }

  lemma SameDeleted(t: Tree, stage: Tree, a: seq<Path>, b: seq<Path>)
    requires forall p :: p in a <==> p in b
    ensures Deleted(t, stage, a) == Deleted(t, stage, b)
  {
    forall q | q in t
      ensures (forall d :: d in a && d !in stage ==> !(d <= q)) <==> (forall d :: d in b && d !in stage ==> !(d <= q))
    {
    }
  }

  // -----------------------------------------------------------------------------------
  // Trees stay well formed
  // -----------------------------------------------------------------------------------

  lemma PlacedWellFormed(t: Tree, p: Path, node: Node)
    requires WellFormed(t) && p != [] && At(t, Parent(p)) == Some(Dir) && forall q :: q in t ==> !(p <= q)
    ensures WellFormed(t[p := node])
  {
    forall q, i | q in t[p := node] && 0 <= i < |q| ensures q[..i] in t && q[..i] != p && t[q[..i]] == Dir {
      if q == p {
        if i < |p| - 1 {
          assert Parent(p)[..i] == p[..i];
        } else {
          assert q[..i] == Parent(p);
        }
      } else {
        assert q[..i] == p ==> p <= q;
      }
    }
  }

  lemma CopiedWellFormed(t: Tree, from: Tree, p: Path)
    requires WellFormed(t) && WellFormed(from) && p != [] && At(t, Parent(p)) == Some(Dir)
    requires forall q :: q in t ==> !(p <= q)
    ensures WellFormed(Copied(t, from, p))
  {
    forall q, i | q in Copied(t, from, p) && 0 <= i < |q|
      ensures q[..i] in Copied(t, from, p) && Copied(t, from, p)[q[..i]] == Dir
    {
      if p <= q {
        if i < |p| {
          assert q[..i] == p[..i];
          assert i < |p| - 1 ==> Parent(p)[..i] == p[..i];
        } else {
          assert p <= q[..i];
        }
      } else {
        PrefixTransitive(p, q[..i], q);
      }
    }
  }

  // Making room for p: the directories above it exist and nothing is left at or under it.
  lemma RoomMade(stage: Tree, p: Path)
    requires p != [] && WellFormed(stage) && CanMakeDirs(stage, Parent(p))
    ensures var room := Removed(WithDirs(stage, Parent(p)), p);
      WellFormed(room) && At(room, Parent(p)) == Some(Dir) && forall q :: q in room ==> !(p <= q)
    ensures var room := Removed(Removed(WithDirs(stage, Parent(p)), PatchingName(p)), p);
      WellFormed(room) && At(room, Parent(p)) == Some(Dir) && forall q :: q in room ==> !(p <= q)
    ensures p !in stage ==> forall q :: q in WithDirs(stage, Parent(p)) ==> !(p <= q)
  {
    var dirs := WithDirs(stage, Parent(p));
    WithDirsWellFormed(stage, Parent(p));
    RemovedWellFormed(dirs, PatchingName(p));
    RemovedWellFormed(dirs, p);
    RemovedWellFormed(Removed(dirs, PatchingName(p)), p);
    forall q | q in dirs && p <= q ensures p in stage {
      WithDirsAt(stage, Parent(p), q);
      assert At(dirs, q).Some? && |q| > |Parent(p)|;
      assert q in stage;
      assert q[..|p|] == p && (|p| == |q| ==> q == p);
    }
  }

  lemma StagedWellFormed(rsync: Rsync, stage: Tree, game: Tree, step: Step)
    requires step.path != [] && WellFormed(stage) && WellFormed(step.delta)
    requires Staged(rsync, stage, game, step).Some?
    ensures WellFormed(Staged(rsync, stage, game, step).value)
  {
    var p, after := step.path, Staged(rsync, stage, game, step).value;
    if step.kind in {PatchKind, CreateKind, CopyKind} && after != stage {
      var dirs := WithDirs(stage, Parent(p));
      RoomMade(stage, p);
      WithDirsWellFormed(stage, Parent(p));
      match step.kind
      case PatchKind => PlacedWellFormed(Removed(Removed(dirs, PatchingName(p)), p), p, after[p]);
      case CreateKind => PlacedWellFormed(dirs, p, File(""));
      case CopyKind => CopiedWellFormed(Removed(dirs, p), step.delta, p);
    }
  }
}
