// The key names of key.cc with the key codes of prime/KeyCode.h.
module KeyNames {
  import opened StrUtils

  type KeyCode = nat

  const NONE: KeyCode := 0
  const CODE_COUNT := 510

  const LEFT_ALT: KeyCode := 308
  const RIGHT_ALT: KeyCode := 307
  const LEFT_CONTROL: KeyCode := 306
  const RIGHT_CONTROL: KeyCode := 305
  const LEFT_SHIFT: KeyCode := 304
  const RIGHT_SHIFT: KeyCode := 303
  const LEFT_COMMAND: KeyCode := 310
  const RIGHT_COMMAND: KeyCode := 309
  const LEFT_WINDOWS: KeyCode := 311
  const RIGHT_WINDOWS: KeyCode := 312
  const ALT_GR: KeyCode := 313
  const LEFT_ARROW: KeyCode := 276
  const RIGHT_ARROW: KeyCode := 275
  const UP_ARROW: KeyCode := 273
  const DOWN_ARROW: KeyCode := 274

  predicate IsModifier(key: KeyCode) {
    key in {LEFT_ALT, LEFT_COMMAND, LEFT_CONTROL, ALT_GR, LEFT_SHIFT, LEFT_WINDOWS,
            RIGHT_ALT, RIGHT_COMMAND, RIGHT_CONTROL, RIGHT_SHIFT, RIGHT_WINDOWS}
  }

  type Table = map<string, KeyCode>

  function Parse(table: Table, key: string): KeyCode {
    var wanted := AsciiStrToUpper(key);
    if wanted in table then table[wanted] else NONE
  }

  const LEFT_NAMES: Table := map[
    "LALT" := 308, "LAPPLE" := 310, "LCOM" := 310, "LCTRL" := 306, "ALTGR" := 313, "LSHIFT" := 304, "LWIN" := 311
  ]

  const RIGHT_NAMES: Table := map[
    "RALT" := 307, "RAPPLE" := 309, "RCOM" := 309, "RCTRL" := 305, "RSHIFT" := 303, "RWIN" := 312
  ]

  const NAVIGATION_NAMES: Table := map[
    "END" := 279, "HOME" := 278, "PGDOWN" := 281, "PGUP" := 280, "DOWN" := 274, "LEFT" := 276, "RIGHT" := 275,
    "UP" := 273
  ]

  const EDITING_NAMES: Table := map[
    "BACKSPACE" := 8, "BREAK" := 318, "CAPS" := 301, "CLEAR" := 12, "DELETE" := 127, "RETURN" := 13
  ]

  const SYSTEM_NAMES: Table := map[
    "ESCAPE" := 27, "HELP" := 315, "INSERT" := 277, "MENU" := 319, "PAUSE" := 19, "PRINT" := 316
  ]

  const LATE_SYSTEM_NAMES: Table := map[
    "SCROLL" := 302, "SYSREQ" := 317, "TAB" := 9, "SPACE" := 32, "MINUS" := 45, "NUMLOCK" := 300
  ]

  const MOUSE_NAMES: Table := map[
    "MOUSE0" := 323, "MOUSE1" := 324, "MOUSE2" := 325, "MOUSE3" := 326, "MOUSE4" := 327, "MOUSE5" := 328,
    "MOUSE6" := 329
  ]

  const PUNCTUATION_NAMES: Table := map[
    "_" := 95, "," := 44, ";" := 59, ":" := 58, "!" := 33, "?" := 63, "." := 46, "'" := 39, "(" := 40,
    ")" := 41, "[" := 91, "]" := 93, "{" := 123, "}" := 125, "@" := 64
  ]

  const SYMBOL_NAMES: Table := map[
    "*" := 42, "/" := 47, "\"" := 34, "\\" := 92, "&" := 38, "#" := 35, "%" := 37, "`" := 96, "^" := 94,
    "+" := 43, "<" := 60, "=" := 61, ">" := 62, "|" := 124, "~" := 126, "$" := 36
  ]

  const DIGIT_NAMES: Table := map[
    "0" := 48, "1" := 49, "2" := 50, "3" := 51, "4" := 52, "5" := 53, "6" := 54, "7" := 55, "8" := 56,
    "9" := 57
  ]

  const LETTER_NAMES: Table := map[
    "A" := 97, "B" := 98, "C" := 99, "D" := 100, "E" := 101, "F" := 102, "G" := 103, "H" := 104, "I" := 105,
    "J" := 106, "K" := 107, "L" := 108, "M" := 109
  ]

  const LATE_LETTER_NAMES: Table := map[
    "N" := 110, "O" := 111, "P" := 112, "Q" := 113, "R" := 114, "S" := 115, "T" := 116, "U" := 117,
    "V" := 118, "W" := 119, "X" := 120, "Y" := 121, "Z" := 122
  ]

  const FUNCTION_NAMES: Table := map[
    "F1" := 282, "F2" := 283, "F3" := 284, "F4" := 285, "F5" := 286, "F6" := 287, "F7" := 288, "F8" := 289, "F9" := 290
  ]

  const LATE_FUNCTION_NAMES: Table := map[
    "F10" := 291, "F11" := 292, "F12" := 293, "F13" := 294, "F14" := 295, "F15" := 296
  ]

  const KEYPAD_NAMES: Table := map[
    "KEY0" := 256, "KEY1" := 257, "KEY2" := 258, "KEY3" := 259, "KEY4" := 260
  ]

  const LATE_KEYPAD_NAMES: Table := map[
    "KEY5" := 261, "KEY6" := 262, "KEY7" := 263, "KEY8" := 264, "KEY9" := 265
  ]

  const KEYPAD_OPERATOR_NAMES: Table := map[
    "KEYMULTI" := 268, "KEYPERIOD" := 266, "KEYPLUS" := 270, "KEYDIVIDE" := 267
  ]

  const LATE_KEYPAD_OPERATOR_NAMES: Table := map["KEYENTER" := 271, "KEYEQUAL" := 272, "KEYMINUS" := 269]

  const MODIFIER_NAMES := LEFT_NAMES + RIGHT_NAMES
  const CURSOR_NAMES := NAVIGATION_NAMES + EDITING_NAMES
  const DEVICE_NAMES := SYSTEM_NAMES + LATE_SYSTEM_NAMES + MOUSE_NAMES
  const SIGN_NAMES := PUNCTUATION_NAMES + SYMBOL_NAMES
  const CHARACTER_NAMES := DIGIT_NAMES + LETTER_NAMES + LATE_LETTER_NAMES
  const BLOCK_NAMES := FUNCTION_NAMES + LATE_FUNCTION_NAMES + KEYPAD_NAMES + LATE_KEYPAD_NAMES
  const OPERATOR_NAMES := KEYPAD_OPERATOR_NAMES + LATE_KEYPAD_OPERATOR_NAMES
  const NAMES := MODIFIER_NAMES + CURSOR_NAMES + DEVICE_NAMES + SIGN_NAMES + BLOCK_NAMES + OPERATOR_NAMES + CHARACTER_NAMES

  ghost predicate NameOk(name: string) {
    && name != "" && name != "NONE"
    && forall k :: 0 <= k < |name| ==> !IsSpace(name[k]) && name[k] != '-' && ToUpper(name[k]) == name[k]
  }

  // What the parser relies on: names are capitals without blanks and dashes, and none of them
  // is the word that switches a shortcut off.
  ghost predicate TableOk(table: Table) {
    forall name :: name in table ==> NameOk(name) && table[name] != NONE
  }

  lemma UnionOk(a: Table, b: Table)
    requires TableOk(a) && TableOk(b)
    ensures TableOk(a + b)
  {
  }

  lemma LeftNamesOk()
    ensures TableOk(LEFT_NAMES)
  {
  }

  lemma RightNamesOk()
    ensures TableOk(RIGHT_NAMES)
  {
  }

  lemma NavigationNamesOk()
    ensures TableOk(NAVIGATION_NAMES)
  {
  }

  lemma EditingNamesOk()
    ensures TableOk(EDITING_NAMES)
  {
  }

  lemma SystemNamesOk()
    ensures TableOk(SYSTEM_NAMES)
  {
  }

  lemma LateSystemNamesOk()
    ensures TableOk(LATE_SYSTEM_NAMES)
  {
  }

  lemma MouseNamesOk()
    ensures TableOk(MOUSE_NAMES)
  {
  }

  lemma PunctuationNamesOk()
    ensures TableOk(PUNCTUATION_NAMES)
  {
  }

  lemma SymbolNamesOk()
    ensures TableOk(SYMBOL_NAMES)
  {
  }

  lemma DigitNamesOk()
    ensures TableOk(DIGIT_NAMES)
  {
  }

  lemma LetterNamesOk()
    ensures TableOk(LETTER_NAMES)
  {
  }

  lemma LateLetterNamesOk()
    ensures TableOk(LATE_LETTER_NAMES)
  {
  }

  lemma FunctionNamesOk()
    ensures TableOk(FUNCTION_NAMES)
  {
  }

  lemma LateFunctionNamesOk()
    ensures TableOk(LATE_FUNCTION_NAMES)
  {
  }

  lemma KeypadNamesOk()
    ensures TableOk(KEYPAD_NAMES)
  {
  }

  lemma LateKeypadNamesOk()
    ensures TableOk(LATE_KEYPAD_NAMES)
  {
  }

  lemma KeypadOperatorNamesOk()
    ensures TableOk(KEYPAD_OPERATOR_NAMES)
  {
  }

  lemma LateKeypadOperatorNamesOk()
    ensures TableOk(LATE_KEYPAD_OPERATOR_NAMES)
  {
  }

  lemma ModifierNamesOk()
    ensures TableOk(MODIFIER_NAMES)
  {
    LeftNamesOk();
    RightNamesOk();
    UnionOk(LEFT_NAMES, RIGHT_NAMES);
  }

  lemma CursorNamesOk()
    ensures TableOk(CURSOR_NAMES)
  {
    NavigationNamesOk();
    EditingNamesOk();
    UnionOk(NAVIGATION_NAMES, EDITING_NAMES);
  }

  lemma DeviceNamesOk()
    ensures TableOk(DEVICE_NAMES)
  {
    SystemNamesOk();
    LateSystemNamesOk();
    UnionOk(SYSTEM_NAMES, LATE_SYSTEM_NAMES);
    MouseNamesOk();
    UnionOk(SYSTEM_NAMES + LATE_SYSTEM_NAMES, MOUSE_NAMES);
  }

  lemma SignNamesOk()
    ensures TableOk(SIGN_NAMES)
  {
    PunctuationNamesOk();
    SymbolNamesOk();
    UnionOk(PUNCTUATION_NAMES, SYMBOL_NAMES);
  }

  lemma CharacterNamesOk()
    ensures TableOk(CHARACTER_NAMES)
  {
    DigitNamesOk();
    LetterNamesOk();
    UnionOk(DIGIT_NAMES, LETTER_NAMES);
    LateLetterNamesOk();
    UnionOk(DIGIT_NAMES + LETTER_NAMES, LATE_LETTER_NAMES);
  }

  lemma BlockNamesOk()
    ensures TableOk(BLOCK_NAMES)
  {
    FunctionNamesOk();
    LateFunctionNamesOk();
    UnionOk(FUNCTION_NAMES, LATE_FUNCTION_NAMES);
    KeypadNamesOk();
    UnionOk(FUNCTION_NAMES + LATE_FUNCTION_NAMES, KEYPAD_NAMES);
    LateKeypadNamesOk();
    UnionOk(FUNCTION_NAMES + LATE_FUNCTION_NAMES + KEYPAD_NAMES, LATE_KEYPAD_NAMES);
  }

  lemma OperatorNamesOk()
    ensures TableOk(OPERATOR_NAMES)
  {
    KeypadOperatorNamesOk();
    LateKeypadOperatorNamesOk();
    UnionOk(KEYPAD_OPERATOR_NAMES, LATE_KEYPAD_OPERATOR_NAMES);
  }

  lemma NamesAreOk()
    ensures TableOk(NAMES)
  {
    ModifierNamesOk();
    CursorNamesOk();
    UnionOk(MODIFIER_NAMES, CURSOR_NAMES);
    DeviceNamesOk();
    UnionOk(MODIFIER_NAMES + CURSOR_NAMES, DEVICE_NAMES);
    SignNamesOk();
    UnionOk(MODIFIER_NAMES + CURSOR_NAMES + DEVICE_NAMES, SIGN_NAMES);
    BlockNamesOk();
    UnionOk(MODIFIER_NAMES + CURSOR_NAMES + DEVICE_NAMES + SIGN_NAMES, BLOCK_NAMES);
    OperatorNamesOk();
    UnionOk(MODIFIER_NAMES + CURSOR_NAMES + DEVICE_NAMES + SIGN_NAMES + BLOCK_NAMES, OPERATOR_NAMES);
    CharacterNamesOk();
    UnionOk(MODIFIER_NAMES + CURSOR_NAMES + DEVICE_NAMES + SIGN_NAMES + BLOCK_NAMES + OPERATOR_NAMES, CHARACTER_NAMES);
  }

  predicate Names(table: Table, name: string, code: KeyCode) {
    name in table && table[name] == code
  }

  lemma UnionNames(a: Table, b: Table, name: string, code: KeyCode)
    requires Names(b, name, code) || (Names(a, name, code) && name !in b)
    ensures Names(a + b, name, code)
  {
  }

  lemma EarlyLetters()
    ensures Names(LETTER_NAMES, "A", 97) && Names(LETTER_NAMES, "B", 98)
    ensures "A" !in LATE_LETTER_NAMES && "B" !in LATE_LETTER_NAMES
  {
  }

  lemma LateLetters()
    ensures Names(LATE_LETTER_NAMES, "X", 120)
  {
  }

  lemma LastNames(others: Table, digits: Table, early: Table, late: Table, name: string, code: KeyCode)
    requires Names(late, name, code) || (Names(early, name, code) && name !in late)
    ensures Names(others + (digits + early + late), name, code)
  {
    if Names(late, name, code) {
      UnionNames(digits + early, late, name, code);
    } else {
      UnionNames(digits, early, name, code);
      UnionNames(digits + early, late, name, code);
    }
    UnionNames(others, digits + early + late, name, code);
  }

  predicate LettersNamed(table: Table) {
    Names(table, "A", 97) && Names(table, "B", 98) && Names(table, "X", 120)
  }

  lemma LettersIn(others: Table, digits: Table, early: Table, late: Table)
    requires Names(early, "A", 97) && Names(early, "B", 98) && Names(late, "X", 120) && "A" !in late && "B" !in late
    ensures LettersNamed(others + (digits + early + late))
  {
    LastNames(others, digits, early, late, "A", 97);
    LastNames(others, digits, early, late, "B", 98);
    LastNames(others, digits, early, late, "X", 120);
  }

  lemma LetterCodes()
    ensures LettersNamed(NAMES)
  {
    EarlyLetters();
    LateLetters();
    LettersIn(MODIFIER_NAMES + CURSOR_NAMES + DEVICE_NAMES + SIGN_NAMES + BLOCK_NAMES + OPERATOR_NAMES, DIGIT_NAMES,
              LETTER_NAMES, LATE_LETTER_NAMES);
  }

  // ---- What the codes are ----

  // The code of a key that is named by its character: the character, letters in lower case.
  function CodeOf(c: char): KeyCode {
    if 'A' <= c <= 'Z' then c as int + 32 else c as int
  }

  function DigitOf(c: char): nat {
    if '0' <= c <= '9' then c as int - '0' as int else 0
  }

  // The right key of a modifier, by the second character and the length of its name: ALT, APPLE,
  // COM, CTRL, SHIFT, WIN.
  function RightOf(c: char, length: nat): KeyCode {
    match c
    case 'A' => if length == 4 then 307 else 309
    case 'C' => if length == 4 then 309 else 305
    case 'S' => 303
    case _ => 312
  }

  // What the spelling of a name says about its code: a single character, a function key by its
  // number, a keypad or mouse key by its digit, and the left or right key of a modifier, of which
  // the left one comes next to the right one.
  predicate Spelled(name: string, code: KeyCode) {
    if |name| == 1 then code == CodeOf(name[0])
    else if |name| == 2 && name[0] == 'F' then code == 281 + DigitOf(name[1])
    else if |name| == 3 && name[0] == 'F' then code == 281 + 10 * DigitOf(name[1]) + DigitOf(name[2])
    else if |name| == 4 && name[0] == 'K' then code == 256 + DigitOf(name[3])
    else if |name| == 6 && name[0] == 'M' then code == 323 + DigitOf(name[5])
    else if |name| >= 4 && name[0] == 'R' && name[1] in "ACSW" then code == RightOf(name[1], |name|)
    else if |name| >= 4 && name[0] == 'L' && name[1] in "ACS" then code == RightOf(name[1], |name|) + 1
    else if |name| >= 4 && name[0] == 'L' && name[1] == 'W' then code == RightOf(name[1], |name|) - 1
    else true
  }

  ghost predicate SpelledRight(table: Table) {
    forall name :: name in table ==> Spelled(name, table[name])
  }

  lemma UnionSpelled(a: Table, b: Table)
    requires SpelledRight(a) && SpelledRight(b)
    ensures SpelledRight(a + b)
  {
  }

  lemma LeftNameSpelled()
    ensures SpelledRight(LEFT_NAMES)
  {
  }

  lemma RightNameSpelled()
    ensures SpelledRight(RIGHT_NAMES)
  {
  }

  lemma NavigationSpelled()
    ensures SpelledRight(NAVIGATION_NAMES)
  {
  }

  lemma EditingSpelled()
    ensures SpelledRight(EDITING_NAMES)
  {
  }

  lemma SystemSpelled()
    ensures SpelledRight(SYSTEM_NAMES)
  {
  }

  lemma LateSystemSpelled()
    ensures SpelledRight(LATE_SYSTEM_NAMES)
  {
  }

  lemma MouseSpelled()
    ensures SpelledRight(MOUSE_NAMES)
  {
  }

  lemma FunctionSpelled()
    ensures SpelledRight(FUNCTION_NAMES)
  {
  }

  lemma LateFunctionSpelled()
    ensures SpelledRight(LATE_FUNCTION_NAMES)
  {
  }

  lemma KeypadSpelled()
    ensures SpelledRight(KEYPAD_NAMES)
  {
  }

  lemma LateKeypadSpelled()
    ensures SpelledRight(LATE_KEYPAD_NAMES)
  {
  }

  lemma OperatorSpelled()
    ensures SpelledRight(KEYPAD_OPERATOR_NAMES)
  {
  }

  lemma LateOperatorSpelled()
    ensures SpelledRight(LATE_KEYPAD_OPERATOR_NAMES)
  {
  }

  lemma PunctuationSpelled()
    ensures SpelledRight(PUNCTUATION_NAMES)
  {
  }

  lemma SymbolSpelled()
    ensures SpelledRight(SYMBOL_NAMES)
  {
  }

  lemma DigitSpelled()
    ensures SpelledRight(DIGIT_NAMES)
  {
  }

  lemma LetterSpelled()
    ensures SpelledRight(LETTER_NAMES)
  {
  }

  lemma LateLetterSpelled()
    ensures SpelledRight(LATE_LETTER_NAMES)
  {
  }

  lemma LongNameSpelled()
    ensures SpelledRight(MODIFIER_NAMES + CURSOR_NAMES + DEVICE_NAMES)
  {
    LeftNameSpelled();
    RightNameSpelled();
    NavigationSpelled();
    EditingSpelled();
    SystemSpelled();
    LateSystemSpelled();
    MouseSpelled();
    UnionSpelled(LEFT_NAMES, RIGHT_NAMES);
    UnionSpelled(NAVIGATION_NAMES, EDITING_NAMES);
    UnionSpelled(SYSTEM_NAMES, LATE_SYSTEM_NAMES);
    UnionSpelled(SYSTEM_NAMES + LATE_SYSTEM_NAMES, MOUSE_NAMES);
    UnionSpelled(MODIFIER_NAMES, CURSOR_NAMES);
    UnionSpelled(MODIFIER_NAMES + CURSOR_NAMES, DEVICE_NAMES);
  }

  lemma BlockNameSpelled()
    ensures SpelledRight(BLOCK_NAMES) && SpelledRight(OPERATOR_NAMES)
  {
    FunctionSpelled();
    LateFunctionSpelled();
    KeypadSpelled();
    LateKeypadSpelled();
    OperatorSpelled();
    LateOperatorSpelled();
    UnionSpelled(FUNCTION_NAMES, LATE_FUNCTION_NAMES);
    UnionSpelled(FUNCTION_NAMES + LATE_FUNCTION_NAMES, KEYPAD_NAMES);
    UnionSpelled(FUNCTION_NAMES + LATE_FUNCTION_NAMES + KEYPAD_NAMES, LATE_KEYPAD_NAMES);
    UnionSpelled(KEYPAD_OPERATOR_NAMES, LATE_KEYPAD_OPERATOR_NAMES);
  }

  lemma CharacterNameSpelled()
    ensures SpelledRight(SIGN_NAMES) && SpelledRight(CHARACTER_NAMES)
  {
    PunctuationSpelled();
    SymbolSpelled();
    UnionSpelled(PUNCTUATION_NAMES, SYMBOL_NAMES);
    DigitSpelled();
    LetterSpelled();
    LateLetterSpelled();
    UnionSpelled(DIGIT_NAMES, LETTER_NAMES);
    UnionSpelled(DIGIT_NAMES + LETTER_NAMES, LATE_LETTER_NAMES);
  }

  // Every name has the code that its spelling says.
  lemma SpelledCodes()
    ensures SpelledRight(NAMES)
  {
    LongNameSpelled();
    BlockNameSpelled();
    CharacterNameSpelled();
    UnionSpelled(MODIFIER_NAMES + CURSOR_NAMES + DEVICE_NAMES, SIGN_NAMES);
    UnionSpelled(MODIFIER_NAMES + CURSOR_NAMES + DEVICE_NAMES + SIGN_NAMES, BLOCK_NAMES);
    UnionSpelled(MODIFIER_NAMES + CURSOR_NAMES + DEVICE_NAMES + SIGN_NAMES + BLOCK_NAMES, OPERATOR_NAMES);
    UnionSpelled(MODIFIER_NAMES + CURSOR_NAMES + DEVICE_NAMES + SIGN_NAMES + BLOCK_NAMES + OPERATOR_NAMES, CHARACTER_NAMES);
  }

  lemma EarlyLetterNamed(c: char)
    requires 'A' <= c <= 'M'
    ensures [c] in LETTER_NAMES
  {
  }

  lemma LateLetterNamed(c: char)
    requires 'N' <= c <= 'Z'
    ensures [c] in LATE_LETTER_NAMES
  {
  }

  lemma DigitNamed(c: char)
    requires '0' <= c <= '9'
    ensures [c] in DIGIT_NAMES
  {
  }

  lemma CharacterNamed(c: char)
    requires 'A' <= c <= 'Z' || '0' <= c <= '9'
    ensures [c] in CHARACTER_NAMES
  {
    if c <= '9' {
      DigitNamed(c);
    } else if c <= 'M' {
      EarlyLetterNamed(c);
    } else {
      LateLetterNamed(c);
    }
    InUnions(DIGIT_NAMES, LETTER_NAMES, LATE_LETTER_NAMES, [c]);
  }

  lemma InUnions(a: Table, b: Table, c: Table, name: string)
    requires name in a || name in b || name in c
    ensures name in a + b + c
  {
  }

  lemma LastNamed(others: Table, last: Table, name: string)
    requires name in last
    ensures name in others + last
  {
  }

  lemma CharacterInNames(c: char)
    requires 'A' <= c <= 'Z' || '0' <= c <= '9'
    ensures [c] in NAMES
  {
    CharacterNamed(c);
    LastNamed(MODIFIER_NAMES + CURSOR_NAMES + DEVICE_NAMES + SIGN_NAMES + BLOCK_NAMES + OPERATOR_NAMES, CHARACTER_NAMES,
              [c]);
  }

  lemma Uppered(c: char, upper: char)
    requires upper as int == if 'a' <= c <= 'z' then c as int - 32 else c as int
    ensures AsciiStrToUpper([c]) == [upper]
  {
  }

  // The character is the name of its own key, a letter in either case that of the lower-case letter.
  predicate CharacterCode(table: Table, c: char) {
    Parse(table, [c]) == if 'A' <= c <= 'Z' then c as int + 32 else c as int
  }

  lemma TypedIn(table: Table, c: char, upper: char)
    requires SpelledRight(table) && [upper] in table
    requires upper as int == if 'a' <= c <= 'z' then c as int - 32 else c as int
    ensures CharacterCode(table, c)
  {
    Uppered(c, upper);
  }

  lemma UpperCase(c: char) returns (upper: char)
    requires 'A' <= c <= 'Z' || 'a' <= c <= 'z' || '0' <= c <= '9'
    ensures 'A' <= upper <= 'Z' || '0' <= upper <= '9'
    ensures upper as int == if 'a' <= c <= 'z' then c as int - 32 else c as int
  {
    upper := if 'a' <= c <= 'z' then (c as int - 32) as char else c;
  }

  // Every letter and digit names a key, in whichever case it is typed, and its code is the
  // character's, letters in lower case.
  lemma TypedCharacter(c: char)
    requires 'A' <= c <= 'Z' || 'a' <= c <= 'z' || '0' <= c <= '9'
    ensures CharacterCode(NAMES, c)
  {
    var upper := UpperCase(c);
    CharacterInNames(upper);
    SpelledCodes();
    TypedIn(NAMES, c, upper);
  }
}
