// A directory tree as a map from paths, relative to its root, to what lies there.
module Disk {
  import opened Options

  type Path = seq<string>
  type Content = string

  // A symbolic link is kept as it is and never followed.
  datatype Node = Dir | File(content: Content) | Link(target: string)

  type Tree = map<Path, Node>

  const EMPTY_TREE: Tree := map[[] := Dir]

  function At(t: Tree, p: Path): Option<Node> {
    if p in t then Some(t[p]) else None
  }

  // Everything lies in a directory.
  predicate WellFormed(t: Tree) {
    [] in t && t[[]] == Dir && forall p, i :: p in t && 0 <= i < |p| ==> p[..i] in t && t[p[..i]] == Dir
  }

  function Parent(p: Path): Path
    requires p != []
  {
    p[..|p| - 1]
  }

  function Removed(t: Tree, p: Path): Tree {
    map q | q in t && !(p <= q) :: t[q]
  }

  // A removal of p that stops halfway has taken away some of what lies at or under p.
  function PartlyRemoved(t: Tree, p: Path, gone: set<Path>): Tree {
    map q | q in t && forall r :: r in gone && p <= r ==> !(r <= q) :: t[q]
  }

  // Creating a directory with its intermediate ones fails where something else is in the way.
  predicate CanMakeDirs(t: Tree, p: Path) {
    forall i :: 0 <= i <= |p| && p[..i] in t ==> t[p[..i]] == Dir
  }

  function WithDirs(t: Tree, p: Path): Tree {
    t + map i | 0 <= i <= |p| :: p[..i] := Dir
  }

  function Copied(t: Tree, from: Tree, p: Path): Tree {
    t + map q | q in from && p <= q :: from[q]
  }

  lemma RemovedWellFormed(t: Tree, p: Path)
    requires WellFormed(t) && p != []
    ensures WellFormed(Removed(t, p))
  {
    forall q, i | q in Removed(t, p) && 0 <= i < |q| ensures q[..i] in Removed(t, p) && t[q[..i]] == Dir {
      assert p <= q[..i] ==> p <= q;
    }
  }

  lemma PartlyRemovedWellFormed(t: Tree, p: Path, gone: set<Path>)
    requires WellFormed(t) && p != []
    ensures WellFormed(PartlyRemoved(t, p, gone))
    ensures forall q {:trigger At(PartlyRemoved(t, p, gone), q)} ::
              At(PartlyRemoved(t, p, gone), q) == At(t, q) || (p <= q && q !in PartlyRemoved(t, p, gone))
  {
    var left := PartlyRemoved(t, p, gone);
    forall q, i | q in left && 0 <= i < |q| ensures q[..i] in left && t[q[..i]] == Dir {
      forall r | r in gone && p <= r ensures !(r <= q[..i]) {
        assert r <= q[..i] ==> r <= q;
      }
    }
    forall q ensures At(left, q) == At(t, q) || (p <= q && q !in left) {
      if q in t && q !in left {
        var r :| r in gone && p <= r && r <= q;
        assert p <= q;
      }
    }
  }

  lemma WithDirsAt(t: Tree, p: Path, q: Path)
    ensures At(WithDirs(t, p), q) == if q <= p then Some(Dir) else At(t, q)
  {
    if q <= p {
      assert p[..|q|] == q;
    }
  }

  lemma WithDirsWellFormed(t: Tree, p: Path)
    requires WellFormed(t) && CanMakeDirs(t, p)
    ensures WellFormed(WithDirs(t, p)) && p in WithDirs(t, p) && WithDirs(t, p)[p] == Dir
  {
    forall q, i | q in WithDirs(t, p) && 0 <= i < |q| ensures At(WithDirs(t, p), q[..i]) == Some(Dir) {
      WithDirsAt(t, p, q);
      WithDirsAt(t, p, q[..i]);
      assert q <= p ==> q[..i] <= p;
      assert At(WithDirs(t, p), q).Some?;
    }
    WithDirsAt(t, p, []);
    WithDirsAt(t, p, p);
  }

  // -----------------------------------------------------------------------------------
  // Overlaying one tree on another
  // -----------------------------------------------------------------------------------

  // A file or link of the overlay lies strictly above p, so nothing can lie at p.
  predicate Covered(over: Tree, p: Path) {
    exists i :: 0 <= i < |p| && p[..i] in over && over[p[..i]] != Dir
  }

  function Overlay(over: Tree, under: Tree): Tree {
    map p | p in over.Keys + under.Keys && (p in over || !Covered(over, p)) :: if p in over then over[p] else under[p]
  }

  // A directory of the overlay meets something that is not one.
  predicate Clashes(over: Tree, under: Tree) {
    exists p :: p in over && over[p] == Dir && p in under && under[p] != Dir
  }

  // left is what a copy of over onto under may leave when it stops anywhere: what the overlay
  // does not reach is untouched, and directories are only added.
  ghost predicate PartlyCopied(over: Tree, under: Tree, left: Tree) {
    && (forall p {:trigger At(left, p)} :: p !in over && !Covered(over, p) ==> At(left, p) == At(under, p))
    && (forall p {:trigger At(left, p)} :: p in over && over[p] == Dir ==>
          At(left, p) == At(under, p) || (p !in under && At(left, p) == Some(Dir)))
  }

  // Running the copy again from wherever it stopped gives what one uninterrupted copy gives,
  // and gets stuck only where that one would.
  lemma CopyResumes(over: Tree, under: Tree, left: Tree)
    requires PartlyCopied(over, under, left)
    ensures Overlay(over, left) == Overlay(over, under)
    ensures Clashes(over, left) <==> Clashes(over, under)
  {
    forall p ensures p in Overlay(over, left) <==> p in Overlay(over, under) {
      ResumesAt(over, under, left, p);
    }
    forall p | p in Overlay(over, under) ensures Overlay(over, left)[p] == Overlay(over, under)[p] {
      ResumesAt(over, under, left, p);
    }
    if Clashes(over, left) {
      var p :| p in over && over[p] == Dir && p in left && left[p] != Dir;
      ResumesAt(over, under, left, p);
    }
    if Clashes(over, under) {
      var p :| p in over && over[p] == Dir && p in under && under[p] != Dir;
      ResumesAt(over, under, left, p);
    }
  }

  lemma ResumesAt(over: Tree, under: Tree, left: Tree, p: Path)
    requires PartlyCopied(over, under, left)
    ensures p !in over && !Covered(over, p) ==> At(left, p) == At(under, p)
    ensures p in over && over[p] == Dir ==> At(left, p) == At(under, p) || (p !in under && At(left, p) == Some(Dir))
  {
  }

  lemma OverlayWellFormed(over: Tree, under: Tree)
    requires WellFormed(over) && WellFormed(under) && !Clashes(over, under)
    ensures WellFormed(Overlay(over, under))
  {
    var t := Overlay(over, under);
    forall p, i | p in t && 0 <= i < |p| ensures p[..i] in t && t[p[..i]] == Dir {
      if p !in over {
        forall k | 0 <= k < i ensures p[..i][..k] == p[..k] {}
        assert Covered(over, p[..i]) ==> Covered(over, p);
      }
    }
  }

  lemma PartlyCopiedTransitive(over: Tree, a: Tree, b: Tree, c: Tree)
    requires PartlyCopied(over, a, b) && PartlyCopied(over, b, c)
    ensures PartlyCopied(over, a, c)
  {
    forall p | p in over && over[p] == Dir
      ensures At(c, p) == At(a, p) || (p !in a && At(c, p) == Some(Dir))
    {
      assert At(b, p) == At(a, p) || (p !in a && At(b, p) == Some(Dir));
      assert At(c, p) == At(b, p) || (p !in b && At(c, p) == Some(Dir));
      assert p in a ==> At(a, p) == Some(a[p]);
    }
    forall p | p !in over && !Covered(over, p) ensures At(c, p) == At(a, p) {
      assert At(b, p) == At(a, p);
    }
  }
}
