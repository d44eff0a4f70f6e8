// What is printed for a list of parsed bindings, read again.
module ShortcutRoundTrip {
  import opened StrUtils
  import opened KeyNames
  import opened Shortcuts

  // ---- Tokens and the blanks around them ----

  // Text between two dashes of an upper-case shortcut.
  ghost predicate IsPiece(s: string) {
    forall k :: 0 <= k < |s| ==> s[k] != '-' && ToUpper(s[k]) == s[k]
  }

  lemma PieceFacts(s: string)
    requires IsPiece(s)
    ensures AsciiStrToUpper(s) == s && Without(s, '-')
  {
  }

  // A piece that parsing has kept.
  ghost predicate Good(table: Table, t: string) {
    IsPiece(t) && Without(t, '|') && !TokenOf(table, t).Junk?
  }

  ghost predicate AllGood(table: Table, ts: seq<string>) {
    forall k :: 0 <= k < |ts| ==> Good(table, ts[k])
  }

  lemma ModifierOfStripped(table: Table, s: string, t: string)
    requires IsPiece(s) && IsPiece(t) && Strip(s) == Strip(t)
    ensures ModifierOf(table, s) == ModifierOf(table, t)
  {
    PieceFacts(s);
    PieceFacts(t);
    SplitLast(s, '-');
    SplitLast(t, '-');
  }

  lemma NameIsStripped(table: Table, t: string)
    requires TableOk(table) && IsPiece(t) && Parse(table, t) != NONE
    ensures !Blank(t) && StripLeading(t) == t && StripTrailing(t) == t && Strip(t) == t
  {
    PieceFacts(t);
    assert t in table && NameOk(t);
    BoundsAre(t, 0, |t|);
    assert t[0..] == t[..|t|] == t[0..|t|] == t;
  }

  lemma GoodIsWhole(table: Table, t: string)
    requires TableOk(table) && Good(table, t)
    ensures Whole(t)
  {
    PieceFacts(t);
    if Blank(t) {
      SplitLast(t, '-');
      StripEnds(t);
      if Parse(table, t) != NONE {
        NameIsStripped(table, t);
      }
    }
  }

  ghost predicate Whole(t: string) {
    !Blank(t) && Without(t, '-')
  }

  // A key's name has no blanks, and blanks around a modifier's name do not matter.
  lemma KeyIsStripped(table: Table, t: string)
    requires TableOk(table) && IsPiece(t) && TokenOf(table, t).Key?
    ensures StripLeading(t) == t && Strip(t) == t
  {
    NameIsStripped(table, t);
  }

  lemma SameModifier(table: Table, t: string, s: string)
    requires TokenOf(table, t).Modifier? && IsPiece(t) && IsPiece(s) && Strip(s) == Strip(t)
    ensures TokenOf(table, s) == TokenOf(table, t)
  {
    ModifierOfStripped(table, s, t);
  }

  // A key's name with a blank in front is no key.
  lemma BlankedToken(table: Table, t: string)
    requires TableOk(table) && Good(table, t)
    ensures TokenOf(table, " " + t) == if TokenOf(table, t).Key? then Junk else TokenOf(table, t)
  {
    var s := " " + t;
    assert IsPiece(s) by {
      assert forall k :: 0 < k < |s| ==> s[k] == t[k - 1];
    }
    GoodIsWhole(table, t);
    StripBlankFirst(s, t);
    ModifierOfStripped(table, s, t);
    if Parse(table, s) != NONE {
      NameIsStripped(table, s);
    }
  }

  lemma Slice(t: string, i: nat, j: nat, s: string)
    requires i <= j <= |t| && IsPiece(t) && s == t[i..j]
    ensures IsPiece(s)
  {
  }

  // Stripping a piece on any side leaves a piece.
  lemma StrippedPieces(t: string)
    requires IsPiece(t) && !Blank(t)
    ensures IsPiece(Strip(t)) && Whole(Strip(t)) && Strip(Strip(t)) == Strip(t)
    ensures IsPiece(StripLeading(t)) && Whole(StripLeading(t)) && Strip(StripLeading(t)) == Strip(t)
    ensures Whole(StripTrailing(t)) && Strip(StripTrailing(t)) == Strip(t)
  {
    StripStripped(t);
    var i, j := Bounds(t);
    BoundsAre(t, i, j);
    Slice(t, i, j, Strip(t));
    Slice(t, i, |t|, StripLeading(t));
    Slice(t, 0, j, StripTrailing(t));
  }

  lemma StrippedToken(table: Table, t: string)
    requires TableOk(table) && Good(table, t)
    ensures Whole(t) && Whole(Strip(t)) && TokenOf(table, Strip(t)) == TokenOf(table, t)
  {
    GoodIsWhole(table, t);
    StrippedPieces(t);
    if TokenOf(table, t).Key? {
      KeyIsStripped(table, t);
    } else {
      SameModifier(table, t, Strip(t));
    }
  }

  lemma LeadingToken(table: Table, t: string)
    requires TableOk(table) && Good(table, t)
    ensures Whole(StripLeading(t)) && TokenOf(table, StripLeading(t)) == TokenOf(table, t)
  {
    GoodIsWhole(table, t);
    StrippedPieces(t);
    if TokenOf(table, t).Key? {
      KeyIsStripped(table, t);
    } else {
      SameModifier(table, t, StripLeading(t));
    }
  }

  // ---- One printed binding ----

  // The pieces of a printed binding when its text stands between others.
  function PrintedPieces(ts: seq<string>, trail: string): seq<string>
    requires ts != []
  {
    if |ts| == 1 then [Strip(ts[0] + trail)] else [ts[0]] + PrintedPieces(ts[1..], trail)
  }

  lemma {:induction false} SplitPrinted(ts: seq<string>, trail: string)
    requires ts != [] && (forall k :: 0 <= k < |ts| ==> Whole(ts[k])) && trail in {"", " "}
    ensures Split(Joined(ts, "-") + trail, '-') == PrintedPieces(ts, trail)
  {
    var first := ts[0];
    if |ts| == 1 {
      WholeLast(first, trail);
      assert Joined(ts, "-") + trail == first + trail;
    } else {
      var rest := Joined(ts[1..], "-") + trail;
      SplitPrinted(ts[1..], trail);
      assert Joined(ts, "-") + trail == first + "-" + rest;
      SplitFront(Joined(ts, "-") + trail, first, '-', rest);
    }
  }

  lemma WholeLast(t: string, trail: string)
    requires Whole(t) && trail in {"", " "}
    ensures Split(t + trail, '-') == [Strip(t + trail)]
  {
    SplitLast(t + trail, '-');
    StripEnds(t + trail);
    assert forall k :: 0 <= k < |t| ==> (t + trail)[k] == t[k];
  }

  lemma {:induction false} PrintedTokens(table: Table, ts: seq<string>, trail: string)
    requires TableOk(table) && ts != [] && AllGood(table, ts) && trail in {"", " "}
    ensures Tokens(table, PrintedPieces(ts, trail)) == Tokens(table, ts)
  {
    if |ts| == 1 {
      StrippedToken(table, ts[0]);
      LastBlank(ts[0], trail);
    } else {
      PrintedTokens(table, ts[1..], trail);
      var rest := PrintedPieces(ts[1..], trail);
      TokensFront(table, ts[0], rest);
      TokensFront(table, ts[0], ts[1..]);
      assert ts == [ts[0]] + ts[1..];
    }
  }

  lemma TokensFront(table: Table, t: string, ts: seq<string>)
    ensures Tokens(table, [t] + ts) == [TokenOf(table, t)] + Tokens(table, ts)
  {
  }

  // What a token in front of others does.
  lemma {:induction false} TokenInFront(token: Token, tokens: seq<Token>)
    requires token != Key(NONE) && Key(NONE) !in tokens
    ensures KeyOf([token] + tokens) ==
            if KeyOf(tokens) == NONE && token.Key? then token.code else KeyOf(tokens)
    ensures ModifiersOf([token] + tokens) ==
            (if token.Modifier? then [token.modifier] else []) + ModifiersOf(tokens)
  {
    var all := [token] + tokens;
    if tokens == [] {
      assert all[..0] == [];
    } else {
      var init := tokens[..|tokens| - 1];
      assert all[..|all| - 1] == [token] + init;
      TokenInFront(token, init);
    }
  }

  // The first token is the binding's only key and does not stand at its end.
  predicate KeyFirst(table: Table, ts: seq<string>) {
    |ts| > 1 && TokenOf(table, ts[0]).Key? && KeyOf(Tokens(table, ts[1..])) == NONE
  }

  lemma LastBlank(t: string, trail: string)
    requires !Blank(t) && trail in {"", " "}
    ensures Strip(t + trail) == Strip(t)
  {
    if trail == " " {
      StripBlanked(t);
    } else {
      assert t + trail == t;
    }
  }

  lemma AllWhole(table: Table, ts: seq<string>)
    requires TableOk(table) && AllGood(table, ts)
    ensures forall k :: 0 <= k < |ts| ==> Whole(ts[k])
  {
    forall k | 0 <= k < |ts|
      ensures Whole(ts[k])
    {
      GoodIsWhole(table, ts[k]);
    }
  }

  // The first binding of several, with a blank behind it.
  lemma FirstReparsed(table: Table, ts: seq<string>)
    requires TableOk(table) && ts != [] && AllGood(table, ts)
    ensures Tokens(table, Split(Joined(ts, "-") + " ", '-')) == Tokens(table, ts)
  {
    AllWhole(table, ts);
    SplitPrinted(ts, " ");
    PrintedTokens(table, ts, " ");
  }

  // A later one, with a blank on both sides: its first token is lost if it is a key, unless it
  // is also its last one.
  lemma MiddleReparsed(table: Table, ts: seq<string>)
    requires TableOk(table) && ts != [] && AllGood(table, ts)
    ensures var tokens := Tokens(table, Split(" " + Joined(ts, "-") + " ", '-'));
            && ModifiersOf(tokens) == ModifiersOf(Tokens(table, ts))
            && KeyOf(tokens) == if KeyFirst(table, ts) then NONE else KeyOf(Tokens(table, ts))
  {
    var first := ts[0];
    AllWhole(table, ts);
    if |ts| == 1 {
      LoneMiddle(ts);
      LoneToken(table, ts);
    } else {
      MiddleSplit(ts);
      FirstReparsed(table, ts[1..]);
      BlankedToken(table, first);
      MiddleTokens(table, ts, Split(Joined(ts[1..], "-") + " ", '-'));
    }
  }

  lemma LoneToken(table: Table, ts: seq<string>)
    requires TableOk(table) && |ts| == 1 && Good(table, ts[0])
    ensures Tokens(table, [Strip(ts[0])]) == Tokens(table, ts)
  {
    StrippedToken(table, ts[0]);
  }

  lemma MiddleTokens(table: Table, ts: seq<string>, pieces: seq<string>)
    requires ts != [] && Tokens(table, pieces) == Tokens(table, ts[1..])
    requires TokenOf(table, " " + ts[0]) == if TokenOf(table, ts[0]).Key? then Junk else TokenOf(table, ts[0])
    ensures var tokens, blanked := Tokens(table, ts), Tokens(table, [" " + ts[0]] + pieces);
            && ModifiersOf(blanked) == ModifiersOf(tokens)
            && KeyOf(blanked) ==
               if TokenOf(table, ts[0]).Key? && KeyOf(Tokens(table, ts[1..])) == NONE then NONE else KeyOf(tokens)
  {
    TokensFront(table, " " + ts[0], pieces);
    TokensFront(table, ts[0], ts[1..]);
    assert ts == [ts[0]] + ts[1..];
    TokenInFront(TokenOf(table, " " + ts[0]), Tokens(table, pieces));
    TokenInFront(TokenOf(table, ts[0]), Tokens(table, ts[1..]));
  }

  lemma MiddleSplit(ts: seq<string>)
    requires |ts| > 1 && forall k :: 0 <= k < |ts| ==> Whole(ts[k])
    ensures Split(" " + Joined(ts, "-") + " ", '-') == [" " + ts[0]] + Split(Joined(ts[1..], "-") + " ", '-')
  {
    WholeBlanked(ts[0]);
    MiddleText(ts);
    SplitFront(" " + Joined(ts, "-") + " ", " " + ts[0], '-', Joined(ts[1..], "-") + " ");
  }

  lemma MiddleText(ts: seq<string>)
    requires |ts| > 1
    ensures " " + Joined(ts, "-") + " " == " " + ts[0] + "-" + (Joined(ts[1..], "-") + " ")
  {
  }

  lemma WholeBlanked(t: string)
    requires Whole(t)
    ensures Whole(" " + t) && Strip(" " + t) == Strip(t)
  {
    StripBlankFirst(" " + t, t);
    assert forall k :: 0 < k < |" " + t| ==> (" " + t)[k] == t[k - 1];
  }

  lemma LoneMiddle(ts: seq<string>)
    requires |ts| == 1 && Whole(ts[0])
    ensures Split(" " + Joined(ts, "-") + " ", '-') == [Strip(ts[0])]
  {
    var t := ts[0];
    assert " " + Joined(ts, "-") + " " == " " + t + " ";
    WholeBlanked(t);
    WholeLast(" " + t, " ");
    LastBlank(" " + t, " ");
  }

  // The last one, with nothing behind it and all blanks around it stripped.
  lemma LastReparsed(table: Table, lead: string, ts: seq<string>)
    requires TableOk(table) && ts != [] && AllGood(table, ts) && lead in {"", " "}
    ensures Tokens(table, Split(Strip(lead + Joined(ts, "-")), '-')) == Tokens(table, ts)
  {
    var first := ts[0];
    AllWhole(table, ts);
    if |ts| == 1 {
      assert lead + Joined(ts, "-") == lead + first;
      LeadStripped(lead, first);
      StrippedToken(table, first);
      StripStripped(first);
      SplitLast(Strip(first), '-');
      LoneToken(table, ts);
    } else {
      LeadingToken(table, first);
      LastSplit(lead, ts);
      TrailingReparsed(table, ts[1..]);
      TokensFront(table, StripLeading(first), Split(StripTrailing(Joined(ts[1..], "-")), '-'));
      TokensFront(table, first, ts[1..]);
      assert ts == [first] + ts[1..];
    }
  }

  lemma LastSplit(lead: string, ts: seq<string>)
    requires |ts| > 1 && (forall k :: 0 <= k < |ts| ==> Whole(ts[k])) && lead in {"", " "}
    requires Whole(StripLeading(ts[0]))
    ensures Split(Strip(lead + Joined(ts, "-")), '-')
         == [StripLeading(ts[0])] + Split(StripTrailing(Joined(ts[1..], "-")), '-')
  {
    LastText(lead, ts);
    SplitFront(Strip(lead + Joined(ts, "-")), StripLeading(ts[0]), '-', StripTrailing(Joined(ts[1..], "-")));
  }

  lemma LastText(lead: string, ts: seq<string>)
    requires |ts| > 1 && (forall k :: 0 <= k < |ts| ==> Whole(ts[k])) && lead in {"", " "}
    ensures StripLeading(ts[0]) != ""
    ensures Strip(lead + Joined(ts, "-")) == StripLeading(ts[0]) + "-" + StripTrailing(Joined(ts[1..], "-"))
  {
    var first := lead + ts[0];
    assert !Blank(first) && StripLeading(first) == StripLeading(ts[0]) != "" by {
      LeadStripped(lead, ts[0]);
      StripStripped(ts[0]);
    }
    WholeJoined(ts[1..]);
    EndsStripped(first, Joined(ts[1..], "-"));
    JoinedFront(lead, ts);
  }

  lemma JoinedFront(lead: string, ts: seq<string>)
    requires |ts| > 1
    ensures lead + Joined(ts, "-") == lead + ts[0] + "-" + Joined(ts[1..], "-")
  {
  }

  lemma EndsStripped(a: string, b: string)
    requires !Blank(a) && !Blank(b)
    ensures Strip(a + "-" + b) == StripLeading(a) + "-" + StripTrailing(b)
  {
    StripEnds(a + "-" + b);
    assert a + "-" + b == a + ("-" + b);
    StripLeadingJoined(a, "-" + b);
    assert StripLeading(a) + ("-" + b) == StripLeading(a) + "-" + b;
    StripTrailingJoined(StripLeading(a) + "-", b);
  }

  lemma LeadStripped(lead: string, t: string)
    requires Whole(t) && lead in {"", " "}
    ensures Whole(lead + t) && StripLeading(lead + t) == StripLeading(t) && Strip(lead + t) == Strip(t)
  {
    if lead == "" {
      assert lead + t == t;
    } else {
      WholeBlanked(t);
      StripBlankFirst(" " + t, t);
    }
  }

  lemma WholeJoined(ts: seq<string>)
    requires ts != [] && forall k :: 0 <= k < |ts| ==> Whole(ts[k])
    ensures !Blank(Joined(ts, "-"))
  {
    var first, text := ts[0], Joined(ts, "-");
    var k :| 0 <= k < |first| && !IsSpace(first[k]);
    assert text[k] == first[k];
  }

  lemma {:induction false} TrailingReparsed(table: Table, ts: seq<string>)
    requires TableOk(table) && ts != [] && AllGood(table, ts)
    ensures Tokens(table, Split(StripTrailing(Joined(ts, "-")), '-')) == Tokens(table, ts)
  {
    var first := ts[0];
    AllWhole(table, ts);
    StrippedToken(table, first);
    if |ts| == 1 {
      assert Joined(ts, "-") == first;
      GoodIsPiece(table, first);
      StrippedPieces(first);
      SplitLast(StripTrailing(first), '-');
      LoneToken(table, ts);
    } else {
      var others, rest := ts[1..], Joined(ts[1..], "-");
      WholeJoined(others);
      assert Joined(ts, "-") == first + "-" + rest;
      StripTrailingJoined(first + "-", rest);
      SplitFront(StripTrailing(Joined(ts, "-")), first, '-', StripTrailing(rest));
      TrailingReparsed(table, others);
      TokensFront(table, first, Split(StripTrailing(rest), '-'));
      TokensFront(table, first, others);
      assert ts == [first] + others;
    }
  }

  lemma GoodIsPiece(table: Table, t: string)
    requires Good(table, t)
    ensures IsPiece(t)
  {
  }
}
