// Normalizing the relative path of a patch rule.
module PatchPath {
  import opened Options
  import opened Disk

  predicate IsSpace(c: char) {
    c in {' ', '\t', '\n', '\r'}
  }

  predicate IsSeparator(c: char) {
    c == '/' || c == '\\'
  }

  function TrimLeft(s: string): string {
    if s != [] && IsSpace(s[0]) then TrimLeft(s[1..]) else s
  }

  function TrimRight(s: string): string {
    if s != [] && IsSpace(s[|s| - 1]) then TrimRight(s[..|s| - 1]) else s
  }

  // The runs of characters between separators.
  function Components(s: string): (cs: seq<string>)
    ensures forall c :: c in cs ==> c != [] && forall x :: x in c ==> !IsSeparator(x)
    decreases |s|
  {
    if s == [] then []
    else if IsSeparator(s[0]) then Components(s[1..])
    else
      var n := Run(s);
      [s[..n]] + Components(s[n..])
  }

  function Run(s: string): (n: nat)
    ensures n <= |s| && (n < |s| ==> IsSeparator(s[n])) && forall i :: 0 <= i < n ==> !IsSeparator(s[i])
    ensures s != [] && !IsSeparator(s[0]) ==> n > 0
  {
    if s == [] || IsSeparator(s[0]) then 0 else 1 + Run(s[1..])
  }

  // A path of plain names: none empty, none "." or "..", so it stays below any root.
  predicate Plain(p: Path) {
    p != [] && forall c :: c in p ==> c != [] && c != "." && c != ".." && forall x :: x in c ==> !IsSeparator(x)
  }

  // None stands for the error the source throws.
  method NormalizedRelativePatchPath(path: string) returns (result: Option<Path>)
    ensures result.Some? <==> Plain(Components(TrimRight(TrimLeft(path))))
    ensures result.Some? ==> result.value == Components(TrimRight(TrimLeft(path)))
  {
    var pieces := Components(TrimRight(TrimLeft(path)));
    var components: seq<string> := [];
    for i := 0 to |pieces|
      invariant components == pieces[..i]
      invariant forall k :: 0 <= k < i ==> pieces[k] != "." && pieces[k] != ".."
    {
      var component := pieces[i];
      if component == "" || component == "." || component == ".." {
        assert component in pieces;
        return None;
      }
      components := components + [component];
    }
    if components == [] {
      return None;
    }
    return Some(components);
  }

  function Joined(p: Path): string {
    if p == [] then "" else if |p| == 1 then p[0] else p[0] + "/" + Joined(p[1..])
  }

  // Splitting what was joined gives the path back.
  lemma {:induction false} JoinedSplits(p: Path)
    requires forall c :: c in p ==> c != [] && forall x :: x in c ==> !IsSeparator(x)
    ensures Components(Joined(p)) == p
  {
    assert forall i :: 0 <= i < |p| ==> p[i] in p;
    if |p| == 1 {
      RunOf(p[0], "");
      assert p[0] + "" == p[0] && p == [p[0]];
    } else if |p| > 1 {
      var rest := "/" + Joined(p[1..]);
      RunOf(p[0], rest);
      assert Joined(p) == p[0] + rest;
      assert (p[0] + rest)[|p[0]|..] == rest && (p[0] + rest)[..|p[0]|] == p[0];
      assert Joined(p)[0] == p[0][0];
      assert rest[1..] == Joined(p[1..]);
      JoinedSplits(p[1..]);
      assert p == [p[0]] + p[1..];
    }
  }

  lemma {:induction false} RunOf(name: string, rest: string)
    requires (forall x :: x in name ==> !IsSeparator(x)) && (rest == [] || IsSeparator(rest[0]))
    ensures Run(name + rest) == |name|
  {
    if name != [] {
      assert (name + rest)[1..] == name[1..] + rest;
      RunOf(name[1..], rest);
    } else {
      assert name + rest == rest;
    }
  }

  // ---- Every way to write a path ----

  ghost predicate Names(p: Path) {
    forall k :: 0 <= k < |p| ==> p[k] != "" && forall x :: x in p[k] ==> x != '/' && x != '\\'
  }

  ghost predicate Slashes(s: string) {
    forall k :: 0 <= k < |s| ==> s[k] == '/' || s[k] == '\\'
  }

  ghost predicate Blanks(s: string) {
    forall k :: 0 <= k < |s| ==> s[k] == ' ' || s[k] == '\t' || s[k] == '\n' || s[k] == '\r'
  }

  // Names with slashes of either kind around and between them, any number at a time.
  function Slashed(p: Path, slashes: seq<string>): string
    requires |slashes| == |p| + 1
  {
    slashes[0] + if p == [] then "" else p[0] + Slashed(p[1..], slashes[1..])
  }

  ghost predicate Separates(slashes: seq<string>, p: Path) {
    && |slashes| == |p| + 1 && (forall k :: 0 <= k < |slashes| ==> Slashes(slashes[k]))
    && forall k :: 0 < k < |p| ==> slashes[k] != ""
  }

  // However a path is written, with whatever blanks around it, its names come out, unless one of
  // them is a dot or two.
  method NormalizeWritten(p: Path, slashes: seq<string>, lead: string, trail: string) returns (result: Option<Path>)
    requires p != [] && Names(p) && Separates(slashes, p) && Blanks(lead) && Blanks(trail)
    requires var core := Slashed(p, slashes); core != "" ==> !IsSpace(core[0]) && !IsSpace(core[|core| - 1])
    ensures result == if "." in p || ".." in p then None else Some(p)
  {
    var core := Slashed(p, slashes);
    var text := lead + core + trail;
    SlashedSplits(p, slashes, core);
    Trimmed(lead, core, trail, text);
    result := NormalizedRelativePatchPath(text);
    assert forall c :: c in p ==> c != "" && forall x :: x in c ==> !IsSeparator(x);
  }

  lemma {:induction false} TrimLeftOf(lead: string, rest: string, text: string)
    requires Blanks(lead) && rest != "" && !IsSpace(rest[0]) && text == lead + rest
    ensures TrimLeft(text) == rest
    decreases |lead|
  {
    if lead == "" {
      assert text == rest;
    } else {
      assert text[0] == lead[0] && text[1..] == lead[1..] + rest;
      TrimLeftOf(lead[1..], rest, text[1..]);
    }
  }

  lemma {:induction false} TrimRightOf(rest: string, trail: string, text: string)
    requires Blanks(trail) && rest != "" && !IsSpace(rest[|rest| - 1]) && text == rest + trail
    ensures TrimRight(text) == rest
    decreases |trail|
  {
    if trail == "" {
      assert text == rest;
    } else {
      assert text[|text| - 1] == trail[|trail| - 1] && text[..|text| - 1] == rest + trail[..|trail| - 1];
      TrimRightOf(rest, trail[..|trail| - 1], text[..|text| - 1]);
    }
  }

  lemma Trimmed(lead: string, core: string, trail: string, text: string)
    requires Blanks(lead) && Blanks(trail) && core != "" && !IsSpace(core[0]) && !IsSpace(core[|core| - 1])
    requires text == lead + core + trail
    ensures TrimRight(TrimLeft(text)) == core
  {
    var rest := core + trail;
    assert text == lead + rest && rest[0] == core[0];
    TrimLeftOf(lead, rest, text);
    TrimRightOf(core, trail, rest);
  }

  lemma {:induction false} SlashesSkipped(slashes: string, rest: string, text: string)
    requires Slashes(slashes) && text == slashes + rest
    ensures Components(text) == Components(rest)
    decreases |slashes|
  {
    if slashes == "" {
      assert text == rest;
    } else {
      assert text[0] == slashes[0] && text[1..] == slashes[1..] + rest;
      SlashesSkipped(slashes[1..], rest, text[1..]);
    }
  }

  lemma NameFirst(name: string, rest: string, text: string)
    requires name != "" && (forall x :: x in name ==> !IsSeparator(x)) && (rest == "" || IsSeparator(rest[0]))
    requires text == name + rest
    ensures Components(text) == [name] + Components(rest)
  {
    RunOf(name, rest);
    assert text[0] == name[0] && name[0] in name;
    assert text[..|name|] == name && text[|name|..] == rest;
  }

  lemma {:induction false} SlashedSplits(p: Path, slashes: seq<string>, text: string)
    requires Names(p) && Separates(slashes, p) && text == Slashed(p, slashes)
    ensures Components(text) == p && (p != [] ==> text != "")
    decreases |p|
  {
    if p == [] {
      assert text == slashes[0] + "";
      SlashesSkipped(slashes[0], "", text);
    } else {
      var rest := Slashed(p[1..], slashes[1..]);
      SlashedSplits(p[1..], slashes[1..], rest);
      SlashedBegins(p[1..], slashes[1..], rest);
      SlashesSkipped(slashes[0], p[0] + rest, text);
      NameFirst(p[0], rest, p[0] + rest);
      assert p == [p[0]] + p[1..];
    }
  }

  lemma SlashedBegins(p: Path, slashes: seq<string>, text: string)
    requires |slashes| == |p| + 1 && Slashes(slashes[0]) && (p != [] ==> slashes[0] != "") && text == Slashed(p, slashes)
    ensures text == "" || IsSeparator(text[0])
  {
    if slashes[0] != "" {
      assert text[0] == slashes[0][0];
    }
  }
}
