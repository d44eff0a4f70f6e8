// The shortcut section of the configuration, config.cc: from configured values to bindings and
// back to the values shown to the user.
module ShortcutConfig {
  import opened StrUtils
  import opened KeyNames
  import opened Shortcuts
  import opened ShortcutRoundTrip
  import opened ShortcutLists

  datatype Value = Value(text: string, sourceItem: string, fromConfig: bool, validType: bool)

  function DefaultValue(item: string, default: string): Value {
    Value(default, item, false, true)
  }

  function SourceLabel(value: Value, item: string): string {
    if !value.validType then "invalid"
    else if !value.fromConfig then "default"
    else if value.sourceItem == item then "config"
    else "alias:" + value.sourceItem
  }

  predicate SwitchedOff(text: string) {
    StripTrailing(text) == "" || AsciiStrToUpper(text) == "NONE"
  }

  // What a value does: it switches the action off, or it adds bindings.
  datatype Setting = Off(source: string) | On(added: seq<MapKey>, source: string)

  function Decision(table: Table, item: string, default: string, value: Value): Setting
    decreases if !value.validType then 2 else if value.fromConfig then 1 else 0
  {
    if !value.validType then Decision(table, item, default, DefaultValue(item, default))
    else if SwitchedOff(value.text) then Off(SourceLabel(value, item))
    else if Bindings(table, value.text) != [] then On(Bindings(table, value.text), SourceLabel(value, item))
    else if value.fromConfig then Decision(table, item, default, DefaultValue(item, default))
    else Off("invalid")
  }

  // ---- Choosing the value ----

  datatype Entry = Str(text: string) | Other

  function ValueOf(config: map<string, Entry>, item: string, default: string): Value {
    if item !in config then DefaultValue(item, default)
    else match config[item]
         case Str(text) => Value(text, item, true, true)
         case Other => Value("", item, true, false)
  }

  // The item itself comes first, then its first alias in the configuration, then the default.
  method ChooseValue(config: map<string, Entry>, item: string, default: string, aliases: seq<string>)
    returns (value: Value)
    ensures item in config ==> value == ValueOf(config, item, default)
    ensures forall i :: (0 <= i < |aliases| && item !in config && aliases[i] in config
                         && forall j :: 0 <= j < i ==> aliases[j] !in config) ==>
                          value == ValueOf(config, aliases[i], default)
    ensures item !in config && (forall alias :: alias in aliases ==> alias !in config) ==>
              value == DefaultValue(item, default)
  {
    value := ValueOf(config, item, default);
    var hasItem := item in config;
    for i := 0 to |aliases|
      invariant value == ValueOf(config, item, default)
      invariant !hasItem ==> forall j :: 0 <= j < i ==> aliases[j] !in config
    {
      if aliases[i] !in config || hasItem {
        continue;
      }
      value := ValueOf(config, aliases[i], default);
      break;
    }
  }

  // ---- The configuration ----

  lemma {:induction false} PiecesNonempty(begun: string, s: string, d: char)
    ensures forall p :: p in SplitAfter(begun, s, d) ==> p != ""
    decreases |s|
  {
    if s != "" {
      PiecesNonempty(if s[0] == d then "" else begun + [s[0]], s[1..], d);
    }
  }

  lemma MapKeyNonempty(table: Table, key: string)
    ensures Nonempty(MapKeyOf(table, key).shortcuts)
  {
    PiecesNonempty("", AsciiStrToUpper(key), '-');
    KeptTokens(table, Pieces(key));
  }

  lemma {:induction false} ParsedMore(table: Table, keys: seq<string>, key: string)
    ensures Parsed(table, keys + [key]) == Parsed(table, keys) + [MapKeyOf(table, key)]
  {
    if keys == [] {
      assert [key][1..] == [];
    } else {
      assert (keys + [key])[1..] == keys[1..] + [key];
      ParsedMore(table, keys[1..], key);
    }
  }

  lemma BoundMore(table: Table, before: seq<MapKey>, keys: seq<string>, i: nat)
    requires i < |keys|
    ensures var so, one := Bound(Parsed(table, keys[..i])), Bound(Parsed(table, [keys[i]]));
            && before + Bound(Parsed(table, keys[..i + 1])) == before + so + one
            && (Bound(Parsed(table, keys[..i + 1])) != [] <==> so != [] || one != [])
  {
    assert keys[..i + 1] == keys[..i] + [keys[i]];
    ParsedMore(table, keys[..i], keys[i]);
    ParsedMore(table, [], keys[i]);
    BoundLast(Parsed(table, keys[..i]), MapKeyOf(table, keys[i]));
    BoundLast([], MapKeyOf(table, keys[i]));
    assert [] + [keys[i]] == [keys[i]];
  }

  lemma BoundLast(mapKeys: seq<MapKey>, mapKey: MapKey)
    ensures Bound(mapKeys + [mapKey]) == Bound(mapKeys) + if mapKey.key != NONE then [mapKey] else []
  {
    assert (mapKeys + [mapKey])[..|mapKeys|] == mapKeys;
  }

  lemma NothingAdded(mappedKeys: seq<seq<MapKey>>, f: nat)
    requires f < |mappedKeys|
    ensures mappedKeys[f := mappedKeys[f] + []] == mappedKeys
  {
    assert mappedKeys[f] + [] == mappedKeys[f];
  }

  class Config {
    var mappedKeys: seq<seq<MapKey>>
    var shortcuts: map<string, string>
    var sources: map<string, string>

    constructor (actions: nat)
      ensures Valid() && |mappedKeys| == actions && forall f :: 0 <= f < actions ==> mappedKeys[f] == []
      ensures shortcuts == map[] && sources == map[]
    {
      mappedKeys, shortcuts, sources := seq(actions, f => []), map[], map[];
    }

    ghost predicate Valid()
      reads this
    {
      forall f :: 0 <= f < |mappedKeys| ==> AllNonempty(mappedKeys[f])
    }

    method AddMappedKey(f: nat, mapKey: MapKey)
      requires Valid() && f < |mappedKeys| && Nonempty(mapKey.shortcuts)
      modifies this`mappedKeys
      ensures Valid() && mappedKeys == old(mappedKeys)[f := old(mappedKeys[f]) + [mapKey]]
    {
      mappedKeys := mappedKeys[f := mappedKeys[f] + [mapKey]];
    }

    method SetNoop(item: string, source: string)
      modifies this`shortcuts, this`sources
      ensures shortcuts == old(shortcuts)[item := "NONE"] && sources == old(sources)[item := source]
    {
      shortcuts := shortcuts[item := "NONE"];
      sources := sources[item := source];
    }

    method AddBindings(table: Table, f: nat, text: string) returns (keyAdded: bool)
      requires Valid() && f < |mappedKeys|
      modifies this`mappedKeys
      ensures Valid() && (keyAdded <==> Bindings(table, text) != [])
      ensures mappedKeys == old(mappedKeys)[f := old(mappedKeys[f]) + Bindings(table, text)]
    {
      var wantedKeys := StrSplit(AsciiStrToUpper(text), '|');
      keyAdded := AddAll(table, f, wantedKeys);
    }

    method AddAll(table: Table, f: nat, wantedKeys: seq<string>) returns (keyAdded: bool)
      requires Valid() && f < |mappedKeys|
      modifies this`mappedKeys
      ensures Valid() && (keyAdded <==> Bound(Parsed(table, wantedKeys)) != [])
      ensures mappedKeys == old(mappedKeys)[f := old(mappedKeys[f]) + Bound(Parsed(table, wantedKeys))]
    {
      keyAdded := false;
      NothingAdded(mappedKeys, f);
      for i := 0 to |wantedKeys|
        invariant Valid() && (keyAdded <==> Bound(Parsed(table, wantedKeys[..i])) != [])
        invariant mappedKeys == old(mappedKeys)[f := old(mappedKeys[f]) + Bound(Parsed(table, wantedKeys[..i]))]
      {
        BoundMore(table, old(mappedKeys[f]), wantedKeys, i);
        var added := AddBinding(table, f, wantedKeys[i]);
        keyAdded := keyAdded || added;
      }
      assert wantedKeys[..|wantedKeys|] == wantedKeys;
    }

    method AddBinding(table: Table, f: nat, wantedKey: string) returns (added: bool)
      requires Valid() && f < |mappedKeys|
      modifies this`mappedKeys
      ensures Valid() && (added <==> Bound(Parsed(table, [wantedKey])) != [])
      ensures mappedKeys == old(mappedKeys)[f := old(mappedKeys[f]) + Bound(Parsed(table, [wantedKey]))]
    {
      NothingAdded(mappedKeys, f);
      MapKeyNonempty(table, wantedKey);
      ParsedMore(table, [], wantedKey);
      BoundLast([], MapKeyOf(table, wantedKey));
      assert [] + [wantedKey] == [wantedKey];
      var mapKey := ParseMapKey(table, wantedKey);
      added := mapKey.key != NONE;
      if added {
        AddMappedKey(f, mapKey);
      }
    }

    // One value is put into effect. The bindings are added to those the action already has, and
    // all of them are shown; nothing else changes.
    method ParseValue(table: Table, item: string, f: nat, default: string, value: Value)
      requires Valid() && f < |mappedKeys|
      modifies this
      ensures Valid()
      ensures var setting := Decision(table, item, default, value);
              && sources == old(sources)[item := setting.source]
              && (setting.Off? ==> mappedKeys == old(mappedKeys) && shortcuts == old(shortcuts)[item := "NONE"])
              && (setting.On? ==> mappedKeys == old(mappedKeys)[f := old(mappedKeys[f]) + setting.added]
                                  && shortcuts == old(shortcuts)[item := Shown(mappedKeys[f])])
      decreases if !value.validType then 2 else if value.fromConfig then 1 else 0
    {
      var sourceLabel := SourceLabel(value, item);
      if !value.validType {
        ParseValue(table, item, f, default, DefaultValue(item, default));
        return;
      }
      if StripTrailing(value.text) == "" || AsciiStrToUpper(value.text) == "NONE" {
        SetNoop(item, sourceLabel);
        return;
      }
      NothingAdded(mappedKeys, f);
      var keyAdded := AddBindings(table, f, value.text);
      if !keyAdded {
        if value.fromConfig {
          ParseValue(table, item, f, default, DefaultValue(item, default));
          return;
        }
        SetNoop(item, "invalid");
        return;
      }
      var shortcut := GetShortcuts(mappedKeys[f]);
      shortcuts := shortcuts[item := shortcut];
      sources := sources[item := sourceLabel];
    }
  }

  ghost predicate AllNonempty(mapKeys: seq<MapKey>) {
    forall mapKey :: mapKey in mapKeys ==> Nonempty(mapKey.shortcuts)
  }

  // ---- Printing and reading again ----

  lemma {:induction false} BoundPrintable(table: Table, keys: seq<string>)
    requires forall p :: p in keys ==> AllChars(p, Plain)
    ensures AllPrintable(table, Bound(Parsed(table, keys)))
  {
    if keys != [] {
      BoundPrintable(table, keys[1..]);
      assert keys == [keys[0]] + keys[1..] && keys[0] in keys;
      ParsedFront(table, keys[0], keys[1..]);
      if MapKeyOf(table, keys[0]).key != NONE {
        PlainText(keys[0]);
        ParsedIsPrintable(table, keys[0]);
      }
    }
  }

  lemma SplitPlain(text: string)
    ensures forall p :: p in Split(AsciiStrToUpper(text), '|') ==> AllChars(p, Plain)
  {
    SplitChars("", AsciiStrToUpper(text), '|', c => ToUpper(c) == c);
  }

  lemma BindingsPrintable(table: Table, text: string)
    ensures AllPrintable(table, Bindings(table, text))
  {
    SplitPlain(text);
    BoundPrintable(table, Split(AsciiStrToUpper(text), '|'));
  }

  // A word that is no name is no token.
  lemma WordIsJunk(table: Table, word: string)
    requires IsPiece(word) && Strip(word) == word != "" && word !in table
    requires word !in ["SHIFT", "ALT", "CTRL", "APPLE", "CMD", "WIN"]
    ensures MapKeyOf(table, word).key == NONE
  {
    PieceFacts(word);
    SplitLast(word, '-');
    assert Split(AsciiStrToUpper(word), '-') == [word];
    OneName(table, NO_MODIFIER, word);
    assert Tokens(table, [word]) == [Junk];
    assert [Junk][..0] == [] && KeyOf([Junk]) == KeyOf([Junk][..0]) == NONE;
  }

  lemma OneName(table: Table, m: ModifierKey, name: string)
    ensures ApplyAll(table, m, [name]) == Apply(table, m, name)
  {
    assert [name][1..] == [];
    assert ApplyAll(table, Apply(table, m, name), []) == Apply(table, m, name);
  }

  lemma NoneIsJunk(table: Table)
    requires TableOk(table)
    ensures MapKeyOf(table, "NONE").key == NONE
  {
    BoundsAre("NONE", 0, 4);
    assert !NameOk("NONE");
    WordIsJunk(table, "NONE");
  }

  lemma BlankStripped(text: string)
    requires StripTrailing(text) == ""
    ensures Strip(AsciiStrToUpper(text)) == "" && Without(AsciiStrToUpper(text), '|')
  {
    var upper := AsciiStrToUpper(text);
    EndBlank(text, 0, |text|);
    assert forall k :: 0 <= k < |upper| ==> IsSpace(text[k]) && upper[k] == text[k];
    StripEnds(upper);
  }

  // A value that switches the action off holds no binding.
  lemma OffHasNoBindings(table: Table, text: string)
    requires TableOk(table)
    requires SwitchedOff(text) || Strip(AsciiStrToUpper(text)) == "NONE"
    ensures Bindings(table, text) == []
  {
    var upper := AsciiStrToUpper(text);
    BoundsAre("NONE", 0, 4);
    if StripTrailing(text) == "" {
      BlankStripped(text);
      SplitLast(upper, '|');
    } else {
      assert Strip(upper) == "NONE";
      NoPipe(upper);
      SplitLast(upper, '|');
      NoneIsJunk(table);
      ParsedFront(table, "NONE", []);
      assert ["NONE"] + [] == ["NONE"];
    }
  }

  lemma NoPipe(s: string)
    requires Strip(s) == "NONE"
    ensures Without(s, '|')
  {
    StripEnds(s);
    var i, j := Bounds(s);
    BoundsAre(s, i, j);
    assert forall k :: i <= k < j ==> s[k] == "NONE"[k - i];
  }

  // What is shown for the bindings of a setting, put into the configuration again, gives the same
  // keys and modifiers in the same order exactly when no binding in the middle begins with its
  // only key and goes on behind it.
  lemma ConfigRoundTrip(table: Table, item: string, default: string, text: string)
    requires TableOk(table) && Bindings(table, text) != []
    ensures var bindings := Bindings(table, text);
            var again := Decision(table, item, default, Value(Shown(bindings), item, true, true));
            && again.On? && again.source == "config"
            && (SameBindings(again.added, bindings) <==> NoneLost(table, bindings, ""))
  {
    var bindings := Bindings(table, text);
    BindingsPrintable(table, text);
    ShownIsPrinted(bindings, "");
    assert "" + Shown(bindings) == Shown(bindings);
    ListReread(table, bindings, "");
    PlainShown(table, bindings, "");
    assert Bindings(table, Shown(bindings)) == Reread(table, bindings, "");
    if SwitchedOff(Shown(bindings)) {
      OffHasNoBindings(table, Shown(bindings));
    }
  }

  lemma {:induction false} PlainShown(table: Table, mapKeys: seq<MapKey>, lead: string)
    requires mapKeys != [] && AllPrintable(table, mapKeys) && lead in {"", " "}
    ensures AsciiStrToUpper(PrintedFrom(mapKeys, lead)) == PrintedFrom(mapKeys, lead)
    decreases |mapKeys|
  {
    TextPlain(table, mapKeys[0]);
    PlainText(Text(mapKeys[0]));
    if |mapKeys| > 1 {
      PlainShown(table, mapKeys[1..], " ");
      UpperJoined(lead, Text(mapKeys[0]), PrintedFrom(mapKeys[1..], " "));
    }
  }

  lemma UpperJoined(lead: string, a: string, b: string)
    requires lead in {"", " "} && AsciiStrToUpper(a) == a && AsciiStrToUpper(b) == b
    ensures AsciiStrToUpper(lead + a + " " + "|" + b) == lead + a + " " + "|" + b
  {
    assert forall k :: 0 <= k < |a| ==> ToUpper(a[k]) == AsciiStrToUpper(a)[k];
    assert forall k :: 0 <= k < |b| ==> ToUpper(b[k]) == AsciiStrToUpper(b)[k];
  }

  ghost predicate KeyLast(table: Table, ts: seq<string>) {
    ts != [] && TokenOf(table, ts[|ts| - 1]).Key?
  }

  // Single bindings, pairs, and lists whose bindings end with their keys come back.
  lemma KeysLastRoundTrip(table: Table, item: string, default: string, text: string)
    requires TableOk(table) && Bindings(table, text) != []
    requires var bindings := Bindings(table, text);
             |bindings| <= 2 || forall k :: 0 <= k < |bindings| ==> KeyLast(table, bindings[k].shortcuts)
    ensures var again := Decision(table, item, default, Value(Shown(Bindings(table, text)), item, true, true));
            again.On? && SameBindings(again.added, Bindings(table, text))
  {
    var bindings := Bindings(table, text);
    ConfigRoundTrip(table, item, default, text);
    if |bindings| > 2 {
      forall k | 0 < k < |bindings| - 1
        ensures !KeyFirst(table, bindings[k].shortcuts)
      {
        KeyLastNotFirst(table, bindings[k].shortcuts);
      }
    }
  }

  lemma KeyLastNotFirst(table: Table, ts: seq<string>)
    requires KeyLast(table, ts)
    ensures !KeyFirst(table, ts)
  {
    if |ts| > 1 {
      LastKeyCounts(table, ts[1..]);
      assert ts[1..][|ts| - 2] == ts[|ts| - 1];
    }
  }

  lemma LastKeyCounts(table: Table, ts: seq<string>)
    requires ts != [] && TokenOf(table, ts[|ts| - 1]).Key?
    ensures KeyOf(Tokens(table, ts)) != NONE
  {
  }

  // Blanks, tabulators, line ends and form feeds only.
  ghost predicate OnlyBlanks(text: string) {
    forall k :: 0 <= k < |text| ==> text[k] as int == 32 || 9 <= text[k] as int <= 13
  }

  lemma EmptyWhenBlank(text: string)
    ensures StripTrailing(text) == "" <==> OnlyBlanks(text)
  {
    if OnlyBlanks(text) {
      EndIs(text, 0, |text|, 0);
    } else if StripTrailing(text) == "" {
      EndBlank(text, 0, |text|);
    }
  }

  lemma SpellsNone(text: string)
    ensures AsciiStrToUpper(text) == "NONE" <==>
              |text| == 4 && text[0] in "Nn" && text[1] in "Oo" && text[2] in "Nn" && text[3] in "Ee"
  {
    var upper, none := AsciiStrToUpper(text), "NONE";
    if upper == none {
      assert ToUpper(text[0]) == none[0] && ToUpper(text[1]) == none[1] && ToUpper(text[2]) == none[2]
             && ToUpper(text[3]) == none[3];
    }
  }

  // A text switches an action off exactly when it is blank or the letters of "none", in any case.
  lemma SwitchesOff(text: string)
    ensures SwitchedOff(text) <==>
              || OnlyBlanks(text)
              || (|text| == 4 && text[0] in "Nn" && text[1] in "Oo" && text[2] in "Nn" && text[3] in "Ee")
  {
    EmptyWhenBlank(text);
    SpellsNone(text);
  }

  // The word that switches an action off has to stand alone: with a blank around it the setting
  // falls back to its default.
  lemma SpacedNone(table: Table, item: string, default: string, text: string)
    requires TableOk(table) && Strip(AsciiStrToUpper(text)) == "NONE"
    ensures Decision(table, item, default, Value(text, item, true, true)) ==
            if AsciiStrToUpper(text) == "NONE" then Off("config")
            else Decision(table, item, default, DefaultValue(item, default))
  {
    OffHasNoBindings(table, text);
    if StripTrailing(text) == "" {
      BlankStripped(text);
      assert false;
    }
  }

  // ---- A binding that does not come back ----

  ghost predicate KeyName(table: Table, name: string) {
    Good(table, name) && TokenOf(table, name).Key?
  }

  lemma LoneKey(table: Table, name: string)
    requires TableOk(table) && KeyName(table, name)
    ensures MapKeyOf(table, name) == MapKey(TokenOf(table, name).code, [], [name])
  {
    KeyIsStripped(table, name);
    PieceFacts(name);
    GoodIsWhole(table, name);
    SplitLast(name, '-');
    OneMore([name], [TokenOf(table, name)], 0);
    assert Tokens(table, [name]) == [TokenOf(table, name)];
    assert [name][..1] == [name] && [TokenOf(table, name)][..1] == [TokenOf(table, name)];
  }

  lemma KeyThenModifier(table: Table, a: string, m: string, text: string)
    requires TableOk(table) && KeyName(table, a) && Good(table, m) && TokenOf(table, m).Modifier? && Strip(m) == m
    requires text == a + "-" + m
    ensures MapKeyOf(table, text) == MapKey(TokenOf(table, a).code, [TokenOf(table, m).modifier], [a, m])
  {
    SplitTwo(table, a, m, text);
    var pieces, tokens := [a, m], [TokenOf(table, a), TokenOf(table, m)];
    OneMore(pieces, tokens, 0);
    OneMore(pieces, tokens, 1);
    assert Tokens(table, pieces) == tokens && pieces[..2] == pieces && tokens[..2] == tokens;
  }

  lemma SplitTwo(table: Table, a: string, m: string, text: string)
    requires TableOk(table) && Good(table, a) && Good(table, m) && Strip(m) == m && text == a + "-" + m
    ensures AsciiStrToUpper(text) == text && Split(text, '-') == [a, m]
  {
    GoodIsWhole(table, a);
    GoodIsWhole(table, m);
    SplitFront(text, a, '-', m);
    SplitLast(m, '-');
  }

  lemma KeyFirstOfTwo(table: Table, a: string, m: string)
    requires TokenOf(table, a).Key? && TokenOf(table, m).Modifier?
    ensures KeyFirst(table, [a, m])
  {
    var token := TokenOf(table, m);
    assert [a, m][1..] == [m] && Tokens(table, [m]) == [token];
    assert [token][..0] == [] && KeyOf([token]) == KeyOf([token][..0]);
  }

  // The text x|a-m|b for keys x, a and b and a modifier m yields three bindings, and what is
  // shown for them does not give them again.
  lemma LostBinding(table: Table, item: string, default: string, x: string, a: string, m: string, b: string, text: string)
    requires TableOk(table) && KeyName(table, x) && KeyName(table, a) && KeyName(table, b)
    requires Good(table, m) && TokenOf(table, m).Modifier? && Strip(m) == m
    requires text == x + "|" + (a + "-" + m + "|" + b)
    ensures Lost(table, item, default, text)
  {
    BindingsOfThree(table, x, a, m, b, text);
    ConfigRoundTrip(table, item, default, text);
  }

  // Of the three bindings in a text not all come back.
  ghost predicate Lost(table: Table, item: string, default: string, text: string) {
    var again := Decision(table, item, default, Value(Shown(Bindings(table, text)), item, true, true));
    |Bindings(table, text)| == 3 && again.On? && !SameBindings(again.added, Bindings(table, text))
  }

  // So with the key names of the source X|A-SHIFT|B is lost.
  lemma LostLetters(item: string, default: string)
    ensures Lost(NAMES, item, default, "X|A-SHIFT|B")
  {
    NamesAreOk();
    LetterCodes();
    LettersJoined();
    LostIn(NAMES, item, default, "X|A-SHIFT|B");
  }

  lemma LettersJoined()
    ensures "X|A-SHIFT|B" == "X" + "|" + ("A" + "-" + "SHIFT" + "|" + "B")
  {
  }

  lemma LostIn(table: Table, item: string, default: string, text: string)
    requires text == "X" + "|" + ("A" + "-" + "SHIFT" + "|" + "B")
    ensures TableOk(table) && LettersNamed(table) ==>
              Lost(table, item, default, text)
  {
    if TableOk(table) && LettersNamed(table) {
      LetterIsKey(table, "X", 120);
      LetterIsKey(table, "A", 97);
      LetterIsKey(table, "B", 98);
      ShiftIsModifier(table);
      LostBinding(table, item, default, "X", "A", "SHIFT", "B", text);
    }
  }

  lemma LetterIsKey(table: Table, name: string, code: KeyCode)
    requires Names(table, name, code) && 97 <= code <= 122 && |name| == 1 && 'A' <= name[0] <= 'Z'
    ensures KeyName(table, name)
  {
    PieceFacts(name);
    BoundsAre(name, 0, 1);
    SplitLast(name, '-');
    assert name[0..1] == name && Split(name, '-') == [name];
    OneName(table, NO_MODIFIER, name);
  }

  lemma ShiftIsModifier(table: Table)
    ensures Good(table, "SHIFT") && TokenOf(table, "SHIFT").Modifier? && Strip("SHIFT") == "SHIFT"
  {
    ShiftIsPiece();
    WordIsModifier(table, "SHIFT");
  }

  lemma ShiftIsPiece()
    ensures IsPiece("SHIFT") && Without("SHIFT", '|') && Strip("SHIFT") == "SHIFT"
  {
    StripWord("SHIFT");
  }

  lemma StripWord(name: string)
    requires name != "" && !IsSpace(name[0]) && !IsSpace(name[|name| - 1])
    ensures Strip(name) == name
  {
    BoundsAre(name, 0, |name|);
    assert name[0..|name|] == name;
  }

  lemma WordIsModifier(table: Table, name: string)
    requires IsPiece(name) && Strip(name) == name && name != "" && Apply(table, NO_MODIFIER, name).HasModifiers()
    ensures TokenOf(table, name).Modifier?
  {
    PieceFacts(name);
    SplitLast(name, '-');
    assert Split(name, '-') == [name];
    OneName(table, NO_MODIFIER, name);
  }

  lemma BindingsOfThree(table: Table, x: string, a: string, m: string, b: string, text: string)
    requires TableOk(table) && KeyName(table, x) && KeyName(table, a) && KeyName(table, b)
    requires Good(table, m) && TokenOf(table, m).Modifier? && Strip(m) == m
    requires text == x + "|" + (a + "-" + m + "|" + b)
    ensures |Bindings(table, text)| == 3 && KeyFirst(table, Bindings(table, text)[1].shortcuts)
  {
    var middle := a + "-" + m;
    assert MapKeyOf(table, middle).key != NONE && MapKeyOf(table, middle).shortcuts == [a, m] by {
      KeyThenModifier(table, a, m, middle);
    }
    LoneName(table, x);
    LoneName(table, b);
    NamePlain(table, a);
    NamePlain(table, m);
    DashedPlain(a, m, middle);
    ThreeBindings(table, x, middle, b, text);
    KeyFirstOfTwo(table, a, m);
  }

  lemma DashedPlain(a: string, m: string, text: string)
    requires AllChars(a, Plain) && AllChars(m, Plain) && text == a + "-" + m
    ensures AllChars(text, Plain) && text != ""
  {
    assert Plain('-');
    forall k | 0 <= k < |text| ensures Plain(text[k]) {
      assert text[k] == if k < |a| then a[k] else if k == |a| then '-' else m[k - |a| - 1];
    }
  }

  lemma LoneName(table: Table, name: string)
    requires TableOk(table) && KeyName(table, name)
    ensures MapKeyOf(table, name).key != NONE && AllChars(name, Plain) && name != "" && Strip(name) == name
  {
    LoneKey(table, name);
    NamePlain(table, name);
    KeyIsStripped(table, name);
  }

  lemma NamePlain(table: Table, name: string)
    requires TableOk(table) && Good(table, name)
    ensures AllChars(name, Plain) && name != ""
  {
    GoodIsWhole(table, name);
  }

  lemma BoundNext(table: Table, key: string, keys: seq<string>, all: seq<string>)
    requires MapKeyOf(table, key).key != NONE && all == [key] + keys
    ensures Bound(Parsed(table, all)) == [MapKeyOf(table, key)] + Bound(Parsed(table, keys))
  {
    ParsedFront(table, key, keys);
  }

  lemma ThreeBindings(table: Table, x: string, middle: string, b: string, text: string)
    requires AllChars(x, Plain) && AllChars(middle, Plain) && AllChars(b, Plain)
    requires x != "" && middle != "" && b != "" && Strip(b) == b && text == x + "|" + (middle + "|" + b)
    requires MapKeyOf(table, x).key != NONE && MapKeyOf(table, middle).key != NONE && MapKeyOf(table, b).key != NONE
    ensures Bindings(table, text) == [MapKeyOf(table, x), MapKeyOf(table, middle), MapKeyOf(table, b)]
  {
    ThreePieces(x, middle, b, text);
    ThreeParsed(table, x, middle, b);
  }

  lemma ThreeParsed(table: Table, p: string, q: string, r: string)
    requires MapKeyOf(table, p).key != NONE && MapKeyOf(table, q).key != NONE && MapKeyOf(table, r).key != NONE
    ensures Bound(Parsed(table, [p, q, r])) == [MapKeyOf(table, p), MapKeyOf(table, q), MapKeyOf(table, r)]
  {
    TwoParsed(table, q, r);
    BoundNext(table, p, [q, r], [p, q, r]);
  }

  lemma TwoParsed(table: Table, q: string, r: string)
    requires MapKeyOf(table, q).key != NONE && MapKeyOf(table, r).key != NONE
    ensures Bound(Parsed(table, [q, r])) == [MapKeyOf(table, q), MapKeyOf(table, r)]
  {
    OneParsed(table, r);
    BoundNext(table, q, [r], [q, r]);
  }

  lemma OneParsed(table: Table, r: string)
    requires MapKeyOf(table, r).key != NONE
    ensures Bound(Parsed(table, [r])) == [MapKeyOf(table, r)]
  {
    BoundNext(table, r, [], [r]);
  }

  lemma ThreePieces(x: string, middle: string, b: string, text: string)
    requires AllChars(x, Plain) && AllChars(middle, Plain) && AllChars(b, Plain)
    requires x != "" && middle != "" && b != "" && Strip(b) == b && text == x + "|" + (middle + "|" + b)
    ensures Split(AsciiStrToUpper(text), '|') == [x, middle, b]
  {
    assert AllChars(middle + "|" + b, c => ToUpper(c) == c);
    assert AsciiStrToUpper(text) == text;
    SplitFront(text, x, '|', middle + "|" + b);
    SplitFront(middle + "|" + b, middle, '|', b);
    SplitLast(b, '|');
  }
}
