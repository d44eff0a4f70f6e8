// Lists of bindings: what the configuration prints for a list of parsed bindings, read again.
module ShortcutLists {
  import opened StrUtils
  import opened KeyNames
  import opened Shortcuts
  import opened ShortcutRoundTrip

  // The bindings with a key.
  function Bound(mapKeys: seq<MapKey>): seq<MapKey> {
    if mapKeys == [] then [] else
      var n := |mapKeys| - 1;
      Bound(mapKeys[..n]) + if mapKeys[n].key != NONE then [mapKeys[n]] else []
  }

  function Parsed(table: Table, keys: seq<string>): (mapKeys: seq<MapKey>) {
    if keys == [] then [] else [MapKeyOf(table, keys[0])] + Parsed(table, keys[1..])
  }

  function Bindings(table: Table, value: string): seq<MapKey> {
    Bound(Parsed(table, Split(AsciiStrToUpper(value), '|')))
  }

  lemma {:induction false} BoundFront(first: MapKey, mapKeys: seq<MapKey>)
    ensures Bound([first] + mapKeys) == (if first.key != NONE then [first] else []) + Bound(mapKeys)
  {
    var all := [first] + mapKeys;
    if mapKeys == [] {
      assert all[..0] == [];
    } else {
      var n := |mapKeys| - 1;
      assert all[..n + 1] == [first] + mapKeys[..n];
      BoundFront(first, mapKeys[..n]);
    }
  }

  // ---- What parsing yields can be printed ----

  // Its tokens, parsed again, give the same key and the same modifiers.
  ghost predicate Printable(table: Table, mapKey: MapKey) {
    && mapKey.key != NONE && mapKey.shortcuts != [] && AllGood(table, mapKey.shortcuts)
    && KeyOf(Tokens(table, mapKey.shortcuts)) == mapKey.key
    && ModifiersOf(Tokens(table, mapKey.shortcuts)) == mapKey.modifiers
  }

  ghost predicate AllChars(s: string, ok: char -> bool) {
    forall k :: 0 <= k < |s| ==> ok(s[k])
  }

  // Splitting keeps the characters and takes out the delimiter.
  lemma {:induction false} SplitChars(begun: string, s: string, d: char, ok: char -> bool)
    requires AllChars(begun, ok) && Without(begun, d) && AllChars(s, ok)
    ensures forall p :: p in SplitAfter(begun, s, d) ==> AllChars(p, ok) && Without(p, d)
    decreases |s|
  {
    if s == "" {
      if Blank(begun) {
        StripEnds(begun);
      } else {
        var i, j := Bounds(begun);
        BoundsAre(begun, i, j);
      }
    } else if s[0] == d {
      SplitChars("", s[1..], d, ok);
    } else {
      SplitChars(begun + [s[0]], s[1..], d, ok);
    }
  }

  function Plain(c: char): bool {
    ToUpper(c) == c && c != '|'
  }

  function Useful(tokens: seq<Token>): seq<Token> {
    if tokens == [] then [] else
      var n := |tokens| - 1;
      Useful(tokens[..n]) + if tokens[n].Junk? then [] else [tokens[n]]
  }

  lemma {:induction false} UsefulCount(tokens: seq<Token>)
    ensures KeyOf(Useful(tokens)) == KeyOf(tokens) && ModifiersOf(Useful(tokens)) == ModifiersOf(tokens)
  {
    if tokens != [] {
      var n := |tokens| - 1;
      var init := Useful(tokens[..n]);
      UsefulCount(tokens[..n]);
      if tokens[n].Junk? {
        assert Useful(tokens) == init;
      } else {
        assert Useful(tokens)[..|init|] == init;
      }
    }
  }

  lemma {:induction false} KeptAreUseful(pieces: seq<string>, tokens: seq<Token>, labels: map<string, Token>)
    requires |pieces| == |tokens|
    requires forall k :: 0 <= k < |pieces| ==> pieces[k] in labels && labels[pieces[k]] == tokens[k]
    ensures var kept := Kept(pieces, tokens);
            && |kept| == |Useful(tokens)|
            && forall k :: 0 <= k < |kept| ==>
                 kept[k] in pieces && labels[kept[k]] == Useful(tokens)[k] && !labels[kept[k]].Junk?
  {
    if pieces != [] {
      var n := |pieces| - 1;
      KeptAreUseful(pieces[..n], tokens[..n], labels);
    }
  }

  lemma KeptTokens(table: Table, pieces: seq<string>)
    ensures var kept := Kept(pieces, Tokens(table, pieces));
            && Tokens(table, kept) == Useful(Tokens(table, pieces))
            && forall k :: 0 <= k < |kept| ==> kept[k] in pieces && !TokenOf(table, kept[k]).Junk?
  {
    KeptAreUseful(pieces, Tokens(table, pieces), map p | p in pieces :: TokenOf(table, p));
  }

  lemma ParsedIsPrintable(table: Table, key: string)
    requires AllChars(AsciiStrToUpper(key), Plain)
    requires MapKeyOf(table, key).key != NONE
    ensures Printable(table, MapKeyOf(table, key))
  {
    var pieces := Pieces(key);
    KeptTokens(table, pieces);
    UsefulCount(Tokens(table, pieces));
    SplitChars("", AsciiStrToUpper(key), '-', Plain);
    var kept := MapKeyOf(table, key).shortcuts;
    forall k | 0 <= k < |kept|
      ensures Good(table, kept[k])
    {
      assert kept[k] in kept && kept[k] in pieces;
    }
  }

  // ---- What is printed ----

  // The printed list from a binding on; lead is what stands in front of it after the pipe.
  function PrintedFrom(mapKeys: seq<MapKey>, lead: string): string
    requires mapKeys != []
  {
    if |mapKeys| == 1 then lead + Text(mapKeys[0])
    else lead + Text(mapKeys[0]) + " " + "|" + PrintedFrom(mapKeys[1..], " ")
  }

  lemma {:induction false} ShownIsPrinted(mapKeys: seq<MapKey>, lead: string)
    requires mapKeys != []
    ensures lead + Shown(mapKeys) == PrintedFrom(mapKeys, lead)
  {
    var texts := Texts(mapKeys);
    if |mapKeys| == 1 {
      assert Joined(texts, " | ") == texts[0];
    } else {
      ShownIsPrinted(mapKeys[1..], " ");
      assert texts[1..] == Texts(mapKeys[1..]);
      assert Joined(texts, " | ") == texts[0] + " | " + Shown(mapKeys[1..]);
      PipeJoined(lead + texts[0], Shown(mapKeys[1..]));
      assert lead + (texts[0] + " | " + Shown(mapKeys[1..])) == lead + texts[0] + " | " + Shown(mapKeys[1..]);
    }
  }

  lemma PipeJoined(a: string, b: string)
    ensures a + " | " + b == a + " " + "|" + (" " + b)
  {
  }

  lemma {:induction false} JoinedPlain(tokens: seq<string>)
    requires forall k :: 0 <= k < |tokens| ==> AllChars(tokens[k], Plain)
    ensures AllChars(Joined(tokens, "-"), Plain)
  {
    if |tokens| > 1 {
      JoinedPlain(tokens[1..]);
    }
  }

  lemma TextPlain(table: Table, mapKey: MapKey)
    requires Printable(table, mapKey)
    ensures AllChars(Text(mapKey), Plain)
  {
    forall k | 0 <= k < |mapKey.shortcuts|
      ensures AllChars(mapKey.shortcuts[k], Plain)
    {
      assert Good(table, mapKey.shortcuts[k]);
    }
    JoinedPlain(mapKey.shortcuts);
  }

  lemma PlainText(s: string)
    requires AllChars(s, Plain)
    ensures AsciiStrToUpper(s) == s && Without(s, '|')
  {
  }

  // ---- The list read again ----

  ghost predicate SameBinding(a: MapKey, b: MapKey) {
    a.key == b.key && a.modifiers == b.modifiers
  }

  ghost predicate SameBindings(a: seq<MapKey>, b: seq<MapKey>) {
    |a| == |b| && forall k :: 0 <= k < |a| ==> SameBinding(a[k], b[k])
  }

  // What becomes of a binding that stands in front of another one.
  lemma FrontReparsed(table: Table, mapKey: MapKey, lead: string)
    requires TableOk(table) && Printable(table, mapKey) && lead in {"", " "}
    ensures var again := MapKeyOf(table, lead + Text(mapKey) + " ");
            if lead == " " && KeyFirst(table, mapKey.shortcuts) then again.key == NONE
            else SameBinding(again, mapKey)
  {
    var text := lead + Text(mapKey) + " ";
    TextPlain(table, mapKey);
    assert AllChars(text, Plain);
    PlainText(text);
    if lead == "" {
      assert text == Text(mapKey) + " ";
      FirstReparsed(table, mapKey.shortcuts);
    } else {
      MiddleReparsed(table, mapKey.shortcuts);
    }
  }

  // What becomes of the last one.
  lemma EndReparsed(table: Table, mapKey: MapKey, lead: string)
    requires TableOk(table) && Printable(table, mapKey) && lead in {"", " "}
    ensures Strip(lead + Text(mapKey)) != "" && SameBinding(MapKeyOf(table, Strip(lead + Text(mapKey))), mapKey)
  {
    var text := lead + Text(mapKey);
    TextPlain(table, mapKey);
    AllWhole(table, mapKey.shortcuts);
    WholeJoined(mapKey.shortcuts);
    LastReparsed(table, lead, mapKey.shortcuts);
    assert AllChars(text, Plain);
    StrippedChars(text);
    PlainText(Strip(text));
  }

  lemma StrippedChars(s: string)
    requires AllChars(s, Plain)
    ensures AllChars(Strip(s), Plain)
  {
    if Blank(s) {
      StripEnds(s);
    } else {
      var i, j := Bounds(s);
      BoundsAre(s, i, j);
    }
  }

  ghost predicate AllPrintable(table: Table, mapKeys: seq<MapKey>) {
    forall k :: 0 <= k < |mapKeys| ==> Printable(table, mapKeys[k])
  }

  function Reread(table: Table, mapKeys: seq<MapKey>, lead: string): seq<MapKey>
    requires mapKeys != []
  {
    Bound(Parsed(table, Split(PrintedFrom(mapKeys, lead), '|')))
  }

  // No binding in the middle begins with its only key and goes on behind it.
  predicate NoneLost(table: Table, mapKeys: seq<MapKey>, lead: string) {
    forall k :: 0 <= k < |mapKeys| - 1 && (k > 0 || lead == " ") ==> !KeyFirst(table, mapKeys[k].shortcuts)
  }

  lemma ParsedFront(table: Table, key: string, keys: seq<string>)
    ensures Bound(Parsed(table, [key] + keys)) ==
            (if MapKeyOf(table, key).key != NONE then [MapKeyOf(table, key)] else []) + Bound(Parsed(table, keys))
  {
    ParsedApart(table, key, keys);
    BoundFront(MapKeyOf(table, key), Parsed(table, keys));
  }

  lemma ParsedApart(table: Table, key: string, keys: seq<string>)
    ensures Parsed(table, [key] + keys) == [MapKeyOf(table, key)] + Parsed(table, keys)
  {
    assert ([key] + keys)[1..] == keys;
  }

  lemma PipeFree(table: Table, mapKey: MapKey, lead: string, trail: string, text: string)
    requires Printable(table, mapKey) && lead in {"", " "} && trail in {"", " "}
    requires text == lead + Text(mapKey) + trail
    ensures Without(text, '|')
  {
    TextPlain(table, mapKey);
    assert AllChars(text, Plain);
    PlainText(text);
  }

  lemma RereadLast(table: Table, mapKeys: seq<MapKey>, lead: string)
    requires TableOk(table) && |mapKeys| == 1 && AllPrintable(table, mapKeys) && lead in {"", " "}
    ensures SameBindings(Reread(table, mapKeys, lead), mapKeys)
  {
    var text := lead + Text(mapKeys[0]);
    EndReparsed(table, mapKeys[0], lead);
    PipeFree(table, mapKeys[0], lead, "", text);
    SplitLast(text, '|');
    ParsedFront(table, Strip(text), []);
    assert [Strip(text)] + [] == [Strip(text)];
  }

  lemma RereadFront(table: Table, mapKeys: seq<MapKey>, lead: string)
    requires |mapKeys| > 1 && Printable(table, mapKeys[0]) && lead in {"", " "}
    ensures var again := MapKeyOf(table, lead + Text(mapKeys[0]) + " ");
            Reread(table, mapKeys, lead) ==
            (if again.key != NONE then [again] else []) + Reread(table, mapKeys[1..], " ")
  {
    var text, rest := lead + Text(mapKeys[0]) + " ", PrintedFrom(mapKeys[1..], " ");
    PipeFree(table, mapKeys[0], lead, " ", text);
    SplitFront(PrintedFrom(mapKeys, lead), text, '|', rest);
    ParsedFront(table, text, Split(rest, '|'));
  }

  lemma {:induction false} ListReread(table: Table, mapKeys: seq<MapKey>, lead: string)
    requires TableOk(table) && mapKeys != [] && AllPrintable(table, mapKeys) && lead in {"", " "}
    ensures 0 < |Reread(table, mapKeys, lead)| <= |mapKeys|
    ensures SameBindings(Reread(table, mapKeys, lead), mapKeys) <==> NoneLost(table, mapKeys, lead)
    decreases |mapKeys|
  {
    if |mapKeys| == 1 {
      RereadLast(table, mapKeys, lead);
    } else {
      var rest := mapKeys[1..];
      ListReread(table, rest, " ");
      FrontReparsed(table, mapKeys[0], lead);
      RereadFront(table, mapKeys, lead);
      LostFront(table, mapKeys, lead);
      SameFront(Reread(table, mapKeys, lead), MapKeyOf(table, lead + Text(mapKeys[0]) + " "),
                Reread(table, rest, " "), mapKeys);
    }
  }

  lemma LostFront(table: Table, mapKeys: seq<MapKey>, lead: string)
    requires |mapKeys| > 1
    ensures NoneLost(table, mapKeys, lead) <==>
            !(lead == " " && KeyFirst(table, mapKeys[0].shortcuts)) && NoneLost(table, mapKeys[1..], " ")
  {
    var rest := mapKeys[1..];
    if NoneLost(table, mapKeys, lead) {
      forall k | 0 <= k < |rest| - 1
        ensures !KeyFirst(table, rest[k].shortcuts)
      {
        assert rest[k] == mapKeys[k + 1];
      }
    }
  }

  lemma SameFront(all: seq<MapKey>, first: MapKey, rest: seq<MapKey>, mapKeys: seq<MapKey>)
    requires mapKeys != [] && mapKeys[0].key != NONE && |rest| <= |mapKeys| - 1
    requires all == (if first.key != NONE then [first] else []) + rest
    requires first.key == NONE || SameBinding(first, mapKeys[0])
    ensures |rest| <= |all| <= |mapKeys|
    ensures SameBindings(all, mapKeys) <==> first.key != NONE && SameBindings(rest, mapKeys[1..])
  {
    if first.key != NONE && SameBindings(all, mapKeys) {
      forall k | 0 <= k < |rest|
        ensures SameBinding(rest[k], mapKeys[1..][k])
      {
        assert rest[k] == all[k + 1];
      }
    }
  }
}
