// What a configured shortcut binds when it is typed as a modifier word, a dash and a letter or digit.
module TypedShortcuts {
  import opened StrUtils
  import opened KeyNames
  import opened Shortcuts

  // The text spells a word of capitals, in whichever case.
  predicate Spells(text: string, word: string) {
    |text| == |word| &&
    forall k :: 0 <= k < |word| ==> 'A' <= word[k] <= 'Z' && (text[k] == word[k] || text[k] as int == word[k] as int + 32)
  }

  lemma SpelledWord(text: string, word: string)
    requires Spells(text, word)
    ensures AsciiStrToUpper(text) == word && AsciiStrToUpper(word) == word && Without(word, '-')
    ensures forall k :: 0 <= k < |word| ==> !IsSpace(word[k])
  {
  }

  // The two keys, left and right, that a modifier word stands for.
  predicate Sides(word: string, left: KeyCode, right: KeyCode) {
    || (word == "SHIFT" && left == 304 && right == 303)
    || (word == "ALT" && left == 308 && right == 307)
    || (word == "CTRL" && left == 306 && right == 305)
    || (word == "APPLE" && left == 310 && right == 309)
    || (word == "CMD" && left == 310 && right == 309)
    || (word == "WIN" && left == 311 && right == 312)
  }

  predicate Character(c: char) {
    'A' <= c <= 'Z' || 'a' <= c <= 'z' || '0' <= c <= '9'
  }

  lemma SingleWord(word: string)
    requires word != "" && Without(word, '-') && forall k :: 0 <= k < |word| ==> !IsSpace(word[k])
    ensures Split(word, '-') == [word]
  {
    BoundsAre(word, 0, |word|);
    assert word[0..|word|] == word;
    SplitLast(word, '-');
  }

  lemma OneName(table: Table, word: string)
    ensures ApplyAll(table, NO_MODIFIER, [word]) == Apply(table, NO_MODIFIER, word)
  {
    assert [word][1..] == [];
  }

  lemma WordApplied(table: Table, word: string, left: KeyCode, right: KeyCode)
    requires Sides(word, left, right)
    ensures Apply(table, NO_MODIFIER, word).codes == [left, right]
  {
    assert Apply(table, NO_MODIFIER, word) == NO_MODIFIER.AddModifier(word, left, right);
  }

  // A modifier word is a token of its two codes.
  lemma WordToken(table: Table, word: string, left: KeyCode, right: KeyCode)
    requires Spells(word, word) && Sides(word, left, right)
    ensures TokenOf(table, word).Modifier? && TokenOf(table, word).modifier.codes == [left, right]
  {
    SpelledWord(word, word);
    SingleWord(word);
    OneName(table, word);
    WordApplied(table, word, left, right);
  }

  // A letter or digit is a token of its code.
  lemma CharacterToken(table: Table, c: char, code: KeyCode)
    requires Character(c) && ToUpper(c) == c && Parse(table, [c]) == code && 0 < code < 128
    ensures TokenOf(table, [c]) == Key(code)
  {
    assert AsciiStrToUpper([c]) == [c];
    SingleWord([c]);
    OneName(table, [c]);
    assert !IsModifier(code);
  }

  lemma UpperPieces(text: string, word: string, c: char, upper: char)
    requires Spells(text, word) && word != "" && Character(c) && upper == ToUpper(c)
    ensures Pieces(text + "-" + [c]) == [word, [upper]]
  {
    var typed := text + "-" + [c];
    SpelledWord(text, word);
    assert AsciiStrToUpper(typed) == word + ['-'] + [upper];
    SplitFront(AsciiStrToUpper(typed), word, '-', [upper]);
    SingleWord([upper]);
  }

  lemma BothTokens(table: Table, pieces: seq<string>, m: ModifierKey, code: KeyCode)
    requires |pieces| == 2 && TokenOf(table, pieces[0]) == Modifier(m) && TokenOf(table, pieces[1]) == Key(code)
    ensures Assembled(pieces, Tokens(table, pieces)).key == code
    ensures Assembled(pieces, Tokens(table, pieces)).modifiers == [m]
  {
    var tokens := Tokens(table, pieces);
    var first := [Modifier(m)];
    assert tokens == [Modifier(m), Key(code)] && tokens[..1] == first && first[..0] == [];
    assert ModifiersOf(first) == ModifiersOf(first[..0]) + [m];
    assert ModifiersOf(tokens) == ModifiersOf(tokens[..1]) + [];
  }

  lemma SidesSpelled(word: string, left: KeyCode, right: KeyCode)
    requires Sides(word, left, right)
    ensures word != "" && Spells(word, word)
  {
  }

  // A text binds one key with the two keys of one modifier.
  predicate Binds(table: Table, text: string, left: KeyCode, right: KeyCode, code: KeyCode) {
    var bound := MapKeyOf(table, text);
    bound.key == code && |bound.modifiers| == 1 && bound.modifiers[0].codes == [left, right]
  }

  lemma TypedWith(table: Table, text: string, word: string, left: KeyCode, right: KeyCode, c: char)
    requires Spells(text, word) && Sides(word, left, right) && Character(c) && CharacterCode(table, ToUpper(c))
    ensures Binds(table, text + "-" + [c], left, right, if 'A' <= c <= 'Z' then c as int + 32 else c as int)
  {
    var upper, code := ToUpper(c), if 'A' <= c <= 'Z' then c as int + 32 else c as int;
    SidesSpelled(word, left, right);
    UpperPieces(text, word, c, upper);
    WordToken(table, word, left, right);
    CharacterToken(table, upper, code);
    BothTokens(table, [word, [upper]], TokenOf(table, word).modifier, code);
  }

  lemma NamedCharacter(c: char)
    requires Character(c)
    ensures CharacterCode(NAMES, ToUpper(c))
  {
    TypedCharacter(ToUpper(c));
  }

  // A modifier word, a dash and a letter or digit, in whichever case, bind that character's key
  // with the two keys of the modifier.
  lemma TypedShortcut(text: string, word: string, left: KeyCode, right: KeyCode, c: char)
    requires Spells(text, word) && Sides(word, left, right) && Character(c)
    ensures Binds(NAMES, text + "-" + [c], left, right, if 'A' <= c <= 'Z' then c as int + 32 else c as int)
  {
    NamedCharacter(c);
    TypedWith(NAMES, text, word, left, right, c);
  }
}
