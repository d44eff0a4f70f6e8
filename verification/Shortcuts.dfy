// Shortcut strings: modifierkey.cc and the parsing and printing half of mapkey.cc.
module Shortcuts {
  import opened StrUtils
  import opened KeyNames

  // ---- One modifier ----

  datatype ModifierKey = ModifierKey(codes: seq<KeyCode>, shortcuts: seq<string>) {
    predicate HasModifiers() {
      codes != []
    }

    predicate Contains(key: KeyCode) {
      HasModifiers() && key in codes
    }

    function AddOne(shortcut: string, key: KeyCode): ModifierKey {
      if Contains(key) then this else ModifierKey(codes + [key], shortcuts + [shortcut])
    }

    // Both codes are there afterwards, none is there twice, and what was there stays in front.
    function AddModifier(shortcut: string, first: KeyCode, second: KeyCode): (m: ModifierKey)
      ensures m.Contains(first) && m.Contains(second) && codes <= m.codes
      ensures NoDuplicates() ==> m.NoDuplicates()
    {
      AddOne(shortcut, first).AddOne(shortcut, second)
    }

    ghost predicate NoDuplicates() {
      forall i, j :: 0 <= i < j < |codes| ==> codes[i] != codes[j]
    }
  }

  const NO_MODIFIER := ModifierKey([], [])

  // What one name adds to a modifier.
  function Apply(table: Table, m: ModifierKey, name: string): ModifierKey {
    if name == "SHIFT" then m.AddModifier(name, LEFT_SHIFT, RIGHT_SHIFT)
    else if name == "ALT" then m.AddModifier(name, LEFT_ALT, RIGHT_ALT)
    else if name == "CTRL" then m.AddModifier(name, LEFT_CONTROL, RIGHT_CONTROL)
    else if name == "APPLE" || name == "CMD" then m.AddModifier(name, LEFT_COMMAND, RIGHT_COMMAND)
    else if name == "WIN" then m.AddModifier(name, LEFT_WINDOWS, RIGHT_WINDOWS)
    else if IsModifier(Parse(table, name)) then m.AddModifier(name, Parse(table, name), NONE)
    else m
  }

  function ApplyAll(table: Table, m: ModifierKey, names: seq<string>): ModifierKey
    decreases |names|
  {
    if names == [] then m else ApplyAll(table, Apply(table, m, names[0]), names[1..])
  }

  function ModifierOf(table: Table, key: string): ModifierKey {
    ApplyAll(table, NO_MODIFIER, Split(AsciiStrToUpper(key), '-'))
  }

  // The codes that one name stands for. A single modifier key brings the empty code with it.
  function CodesOf(table: Table, name: string): set<KeyCode> {
    if name == "SHIFT" then {LEFT_SHIFT, RIGHT_SHIFT}
    else if name == "ALT" then {LEFT_ALT, RIGHT_ALT}
    else if name == "CTRL" then {LEFT_CONTROL, RIGHT_CONTROL}
    else if name == "APPLE" || name == "CMD" then {LEFT_COMMAND, RIGHT_COMMAND}
    else if name == "WIN" then {LEFT_WINDOWS, RIGHT_WINDOWS}
    else if IsModifier(Parse(table, name)) then {Parse(table, name), NONE} else {}
  }

  lemma ApplyCodes(table: Table, m: ModifierKey, name: string)
    requires m.NoDuplicates()
    ensures Apply(table, m, name).NoDuplicates()
    ensures forall code :: code in Apply(table, m, name).codes <==> code in m.codes || code in CodesOf(table, name)
  {
    if name == "SHIFT" {
      AddedCodes(m, name, LEFT_SHIFT, RIGHT_SHIFT);
    } else if name == "ALT" {
      AddedCodes(m, name, LEFT_ALT, RIGHT_ALT);
    } else if name == "CTRL" {
      AddedCodes(m, name, LEFT_CONTROL, RIGHT_CONTROL);
    } else if name == "APPLE" || name == "CMD" {
      AddedCodes(m, name, LEFT_COMMAND, RIGHT_COMMAND);
    } else if name == "WIN" {
      AddedCodes(m, name, LEFT_WINDOWS, RIGHT_WINDOWS);
    } else if IsModifier(Parse(table, name)) {
      AddedCodes(m, name, Parse(table, name), NONE);
    }
  }

  lemma AddedCodes(m: ModifierKey, name: string, first: KeyCode, second: KeyCode)
    requires m.NoDuplicates()
    ensures m.AddModifier(name, first, second).NoDuplicates()
    ensures forall code :: code in m.AddModifier(name, first, second).codes <==> code in m.codes || code in {first, second}
  {
  }

  predicate Named(table: Table, names: seq<string>, code: KeyCode) {
    exists i :: 0 <= i < |names| && code in CodesOf(table, names[i])
  }

  lemma {:induction false} ApplyAllCodes(table: Table, m: ModifierKey, names: seq<string>)
    requires m.NoDuplicates()
    ensures ApplyAll(table, m, names).NoDuplicates()
    ensures forall code :: code in ApplyAll(table, m, names).codes <==> code in m.codes || Named(table, names, code)
    decreases |names|
  {
    if names != [] {
      var next := Apply(table, m, names[0]);
      ApplyCodes(table, m, names[0]);
      ApplyAllCodes(table, next, names[1..]);
      forall code ensures Named(table, names, code) <==> code in CodesOf(table, names[0]) || Named(table, names[1..], code) {
        NamedFront(table, names, code);
      }
    }
  }

  lemma NamedFront(table: Table, names: seq<string>, code: KeyCode)
    requires names != []
    ensures Named(table, names, code) <==> code in CodesOf(table, names[0]) || Named(table, names[1..], code)
  {
    if i :| 0 <= i < |names| && code in CodesOf(table, names[i]) {
      assert i > 0 ==> names[i] == names[1..][i - 1];
    }
    if i :| 0 <= i < |names[1..]| && code in CodesOf(table, names[1..][i]) {
      assert names[1..][i] == names[i + 1];
    }
  }

  // A modifier holds exactly the codes of the names in its text, each once.
  lemma ModifierCodes(table: Table, key: string)
    ensures ModifierOf(table, key).NoDuplicates()
    ensures forall code :: code in ModifierOf(table, key).codes <==> Named(table, Split(AsciiStrToUpper(key), '-'), code)
  {
    ApplyAllCodes(table, NO_MODIFIER, Split(AsciiStrToUpper(key), '-'));
  }

  method ParseModifier(table: Table, key: string) returns (modifier: ModifierKey)
    ensures modifier == ModifierOf(table, key) && modifier.NoDuplicates()
    ensures forall code :: code in modifier.codes <==> Named(table, Split(AsciiStrToUpper(key), '-'), code)
  {
    ModifierCodes(table, key);
    var wantedKeys := StrSplit(AsciiStrToUpper(key), '-');
    modifier := NO_MODIFIER;
    for i := 0 to |wantedKeys|
      invariant ApplyAll(table, modifier, wantedKeys[i..]) == ModifierOf(table, key)
    {
      modifier := Apply(table, modifier, wantedKeys[i]);
    }
  }

  // ---- One binding ----

  datatype Token = Modifier(modifier: ModifierKey) | Key(code: KeyCode) | Junk

  function TokenOf(table: Table, piece: string): Token {
    var modifier := ModifierOf(table, piece);
    var code := Parse(table, piece);
    if modifier.HasModifiers() then Modifier(modifier)
    else if IsModifier(code) || code == NONE then Junk
    else Key(code)
  }

  datatype MapKey = MapKey(key: KeyCode, modifiers: seq<ModifierKey>, shortcuts: seq<string>)

  function Tokens(table: Table, pieces: seq<string>): (tokens: seq<Token>)
    ensures |tokens| == |pieces|
    ensures forall k :: 0 <= k < |pieces| ==> tokens[k] == TokenOf(table, pieces[k])
  {
    seq(|pieces|, k requires 0 <= k < |pieces| => TokenOf(table, pieces[k]))
  }

  // The last key counts.
  function KeyOf(tokens: seq<Token>): KeyCode {
    if tokens == [] then NONE else
      var last := tokens[|tokens| - 1];
      if last.Key? then last.code else KeyOf(tokens[..|tokens| - 1])
  }

  // All modifiers count, in order.
  function ModifiersOf(tokens: seq<Token>): seq<ModifierKey> {
    if tokens == [] then [] else
      var last := tokens[|tokens| - 1];
      ModifiersOf(tokens[..|tokens| - 1]) + if last.Modifier? then [last.modifier] else []
  }

  // Pieces that are neither are forgotten.
  function Kept(pieces: seq<string>, tokens: seq<Token>): seq<string>
    requires |pieces| == |tokens|
  {
    if tokens == [] then [] else
      var n := |tokens| - 1;
      Kept(pieces[..n], tokens[..n]) + if tokens[n].Junk? then [] else [pieces[n]]
  }

  function Assembled(pieces: seq<string>, tokens: seq<Token>): MapKey
    requires |pieces| == |tokens|
  {
    MapKey(KeyOf(tokens), ModifiersOf(tokens), Kept(pieces, tokens))
  }

  function Pieces(key: string): seq<string> {
    Split(AsciiStrToUpper(key), '-')
  }

  function MapKeyOf(table: Table, key: string): MapKey {
    Assembled(Pieces(key), Tokens(table, Pieces(key)))
  }

  // One round of the parsing loop.
  function Extend(mapKey: MapKey, piece: string, token: Token): MapKey {
    match token
    case Modifier(m) => MapKey(mapKey.key, mapKey.modifiers + [m], mapKey.shortcuts + [piece])
    case Key(code) => MapKey(code, mapKey.modifiers, mapKey.shortcuts + [piece])
    case Junk => mapKey
  }

  lemma OneMore(pieces: seq<string>, tokens: seq<Token>, i: nat)
    requires i < |pieces| == |tokens|
    ensures Assembled(pieces[..i + 1], tokens[..i + 1]) == Extend(Assembled(pieces[..i], tokens[..i]), pieces[i], tokens[i])
  {
    assert pieces[..i + 1][..i] == pieces[..i] && tokens[..i + 1][..i] == tokens[..i];
  }

  method ParseMapKey(table: Table, key: string) returns (mapKey: MapKey)
    ensures mapKey == MapKeyOf(table, key)
  {
    var wantedKeys := StrSplit(AsciiStrToUpper(key), '-');
    ghost var tokens := Tokens(table, wantedKeys);
    mapKey := MapKey(NONE, [], []);
    for i := 0 to |wantedKeys|
      invariant mapKey == Assembled(wantedKeys[..i], tokens[..i])
    {
      OneMore(wantedKeys, tokens, i);
      mapKey := AddPiece(table, mapKey, wantedKeys[i]);
    }
    assert wantedKeys[..|wantedKeys|] == wantedKeys && tokens[..|tokens|] == tokens;
  }

  method AddPiece(table: Table, mapKey: MapKey, wantedKey: string) returns (result: MapKey)
    ensures result == Extend(mapKey, wantedKey, TokenOf(table, wantedKey))
  {
    result := mapKey;
    var modifier := ParseModifier(table, wantedKey);
    if modifier.HasModifiers() {
      result := result.(modifiers := result.modifiers + [modifier], shortcuts := result.shortcuts + [wantedKey]);
    } else {
      var parsedKey := Parse(table, wantedKey);
      if IsModifier(parsedKey) {
        return;
      }
      if parsedKey != NONE {
        result := result.(key := parsedKey, shortcuts := result.shortcuts + [wantedKey]);
      }
    }
  }

  // ---- Printing ----

  function Joined(tokens: seq<string>, separator: string): string {
    if tokens == [] then "" else
      tokens[0] + if |tokens| == 1 then "" else separator + Joined(tokens[1..], separator)
  }

  lemma {:induction false} JoinedMore(tokens: seq<string>, token: string, separator: string)
    ensures Joined(tokens + [token], separator)
         == Joined(tokens, separator) + (if tokens == [] then "" else separator) + token
  {
    if tokens != [] {
      assert (tokens + [token])[1..] == tokens[1..] + [token];
      JoinedMore(tokens[1..], token, separator);
    }
  }

  ghost predicate Nonempty(tokens: seq<string>) {
    forall k :: 0 <= k < |tokens| ==> tokens[k] != ""
  }

  // The dash is left out while the output is still empty, which is before the first token
  // only because no token is empty.
  method GetParsedValues(shortcuts: seq<string>) returns (output: string)
    ensures Nonempty(shortcuts) ==> output == Joined(shortcuts, "-")
  {
    output := "";
    for i := 0 to |shortcuts|
      invariant Nonempty(shortcuts) ==> output == Joined(shortcuts[..i], "-") && (output == "" <==> i == 0)
    {
      JoinedMore(shortcuts[..i], shortcuts[i], "-");
      assert shortcuts[..i] + [shortcuts[i]] == shortcuts[..i + 1];
      if |output| != 0 {
        output := output + "-";
      }
      output := output + shortcuts[i];
    }
    assert shortcuts[..|shortcuts|] == shortcuts;
  }

  function Text(mapKey: MapKey): string {
    Joined(mapKey.shortcuts, "-")
  }

  function Texts(mapKeys: seq<MapKey>): (r: seq<string>)
    ensures |r| == |mapKeys| && forall k :: 0 <= k < |r| ==> r[k] == Text(mapKeys[k])
  {
    seq(|mapKeys|, k requires 0 <= k < |mapKeys| => Text(mapKeys[k]))
  }

  function Shown(mapKeys: seq<MapKey>): string {
    Joined(Texts(mapKeys), " | ")
  }

  method GetShortcuts(mapKeys: seq<MapKey>) returns (shortcuts: string)
    ensures (forall mapKey :: mapKey in mapKeys ==> Nonempty(mapKey.shortcuts)) ==> shortcuts == Shown(mapKeys)
  {
    var appendPipe := false;
    shortcuts := "";
    for i := 0 to |mapKeys|
      invariant appendPipe <==> i > 0
      invariant (forall mapKey :: mapKey in mapKeys ==> Nonempty(mapKey.shortcuts)) ==>
                  shortcuts == Joined(Texts(mapKeys)[..i], " | ")
    {
      JoinedMore(Texts(mapKeys)[..i], Text(mapKeys[i]), " | ");
      assert Texts(mapKeys)[..i] + [Text(mapKeys[i])] == Texts(mapKeys)[..i + 1];
      if appendPipe {
        shortcuts := shortcuts + " | ";
      }
      var values := GetParsedValues(mapKeys[i].shortcuts);
      shortcuts := shortcuts + values;
      appendPipe := true;
    }
    assert Texts(mapKeys)[..|mapKeys|] == Texts(mapKeys);
  }
}
