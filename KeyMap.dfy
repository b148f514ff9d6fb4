/**
  The character-to-key table of the virtual keyboard: which key, with or without
  shift, types each character on a US layout, and the accented characters that are
  typed as their base letter.
*/
module KeyMap {
  import opened Wrappers

  /** The keys the virtual keyboard is registered with. */
  datatype Key =
    | KeyA | KeyB | KeyC | KeyD | KeyE | KeyF | KeyG | KeyH | KeyI | KeyJ | KeyK | KeyL | KeyM
    | KeyN | KeyO | KeyP | KeyQ | KeyR | KeyS | KeyT | KeyU | KeyV | KeyW | KeyX | KeyY | KeyZ
    | Key1 | Key2 | Key3 | Key4 | Key5 | Key6 | Key7 | Key8 | Key9 | Key0
    | KeySpace | KeyEnter | KeyTab | KeyLeftShift
    | KeyMinus | KeyEqual | KeyLeftBrace | KeyRightBrace | KeyBackslash | KeySemicolon
    | KeyApostrophe | KeyGrave | KeyComma | KeyDot | KeySlash
    | KeyBackspace | KeyEsc | KeyLeftCtrl | KeyLeftAlt

  /** A key and whether shift is held while it is pressed. */
  datatype KeyStroke = KeyStroke(key: Key, shift: bool)

  /** A row of the table of basic characters. */
  type Row = (char, Key, bool)

  /** An accented character and the character whose key types it. */
  type Accent = (char, char)

  /** Lowercase letters. */
  const LowercaseLetters: seq<Row> := [
    ('a', KeyA, false),
    ('b', KeyB, false),
    ('c', KeyC, false),
    ('d', KeyD, false),
    ('e', KeyE, false),
    ('f', KeyF, false),
    ('g', KeyG, false),
    ('h', KeyH, false),
    ('i', KeyI, false),
    ('j', KeyJ, false),
    ('k', KeyK, false),
    ('l', KeyL, false),
    ('m', KeyM, false),
    ('n', KeyN, false),
    ('o', KeyO, false),
    ('p', KeyP, false),
    ('q', KeyQ, false),
    ('r', KeyR, false),
    ('s', KeyS, false),
    ('t', KeyT, false),
    ('u', KeyU, false),
    ('v', KeyV, false),
    ('w', KeyW, false),
    ('x', KeyX, false),
    ('y', KeyY, false),
    ('z', KeyZ, false)
  ]

  /** Uppercase letters. */
  const UppercaseLetters: seq<Row> := [
    ('A', KeyA, true),
    ('B', KeyB, true),
    ('C', KeyC, true),
    ('D', KeyD, true),
    ('E', KeyE, true),
    ('F', KeyF, true),
    ('G', KeyG, true),
    ('H', KeyH, true),
    ('I', KeyI, true),
    ('J', KeyJ, true),
    ('K', KeyK, true),
    ('L', KeyL, true),
    ('M', KeyM, true),
    ('N', KeyN, true),
    ('O', KeyO, true),
    ('P', KeyP, true),
    ('Q', KeyQ, true),
    ('R', KeyR, true),
    ('S', KeyS, true),
    ('T', KeyT, true),
    ('U', KeyU, true),
    ('V', KeyV, true),
    ('W', KeyW, true),
    ('X', KeyX, true),
    ('Y', KeyY, true),
    ('Z', KeyZ, true)
  ]

  /** Numbers. */
  const Numbers: seq<Row> := [
    ('0', Key0, false),
    ('1', Key1, false),
    ('2', Key2, false),
    ('3', Key3, false),
    ('4', Key4, false),
    ('5', Key5, false),
    ('6', Key6, false),
    ('7', Key7, false),
    ('8', Key8, false),
    ('9', Key9, false)
  ]

  /** Special characters. */
  const SpecialCharacters: seq<Row> := [
    ('!', Key1, true),
    ('@', Key2, true),
    ('#', Key3, true),
    ('$', Key4, true),
    ('%', Key5, true),
    ('^', Key6, true),
    ('&', Key7, true),
    ('*', Key8, true),
    ('(', Key9, true),
    (')', Key0, true),
    ('_', KeyMinus, true),
    ('+', KeyEqual, true),
    ('{', KeyLeftBrace, true),
    ('}', KeyRightBrace, true),
    ('|', KeyBackslash, true),
    (':', KeySemicolon, true),
    ('"', KeyApostrophe, true),
    ('<', KeyComma, true),
    ('>', KeyDot, true),
    ('?', KeySlash, true),
    ('~', KeyGrave, true)
  ]

  /** Common punctuation. */
  const CommonPunctuation: seq<Row> := [
    ('-', KeyMinus, false),
    ('=', KeyEqual, false),
    ('[', KeyLeftBrace, false),
    (']', KeyRightBrace, false),
    ('\\', KeyBackslash, false),
    (';', KeySemicolon, false),
    ('\'', KeyApostrophe, false),
    (',', KeyComma, false),
    ('.', KeyDot, false),
    ('/', KeySlash, false),
    ('`', KeyGrave, false)
  ]

  /** Whitespace. */
  const WhitespaceChars: seq<Row> := [
    (' ', KeySpace, false),
    ('\t', KeyTab, false),
    ('\n', KeyEnter, false)
  ]

  /** Action keys. */
  const ActionKeys: seq<Row> := [
    ('\U{8}', KeyBackspace, false),
    ('\U{1b}', KeyEsc, false)
  ]

  /** French accented characters. */
  const FrenchAccents: seq<Accent> := [
    ('à', 'a'),
    ('â', 'a'),
    ('ä', 'a'),
    ('è', 'e'),
    ('é', 'e'),
    ('ê', 'e'),
    ('ë', 'e'),
    ('î', 'i'),
    ('ï', 'i'),
    ('ô', 'o'),
    ('ö', 'o'),
    ('ù', 'u'),
    ('û', 'u'),
    ('ü', 'u'),
    ('ÿ', 'y'),
    ('ç', 'c'),
    ('œ', 'o'),
    ('æ', 'a')
  ]

  /** Uppercase versions. */
  const UppercaseAccents: seq<Accent> := [
    ('À', 'A'),
    ('Â', 'A'),
    ('Ä', 'A'),
    ('È', 'E'),
    ('É', 'E'),
    ('Ê', 'E'),
    ('Ë', 'E'),
    ('Î', 'I'),
    ('Ï', 'I'),
    ('Ô', 'O'),
    ('Ö', 'O'),
    ('Ù', 'U'),
    ('Û', 'U'),
    ('Ü', 'U'),
    ('Ÿ', 'Y'),
    ('Ç', 'C'),
    ('Œ', 'O'),
    ('Æ', 'A')
  ]

  /** Spanish characters. */
  const SpanishChars: seq<Accent> := [
    ('ñ', 'n'),
    ('Ñ', 'N'),
    ('¿', '?'),
    ('¡', '!')
  ]

  /** German characters. */
  const GermanChars: seq<Accent> := [
    ('ß', 's')
  ]

  /** Scandinavian characters. */
  const ScandinavianChars: seq<Accent> := [
    ('å', 'a'),
    ('Å', 'A'),
    ('ø', 'o'),
    ('Ø', 'O'),
    ('æ', 'a'),
    ('Æ', 'A')
  ]

  /** Other common European characters. */
  const OtherEuropeanChars: seq<Accent> := [
    ('€', 'e'),
    ('£', 'l'),
    ('¥', 'y')
  ]

  /** The table of basic characters, in the order the map is filled. */
  const BasicChars: seq<Row> :=
    LowercaseLetters + UppercaseLetters + Numbers + SpecialCharacters + CommonPunctuation
    + WhitespaceChars + ActionKeys

  /** The accented characters, in the order the map is filled. */
  const UnicodeMappings: seq<Accent> :=
    FrenchAccents + UppercaseAccents + SpanishChars + GermanChars + ScandinavianChars
    + OtherEuropeanChars

  // ----- The US layout, key by key -----

  /** The letter keys, from A to Z. */
  const Letters: seq<Key> := [KeyA, KeyB, KeyC, KeyD, KeyE, KeyF, KeyG, KeyH, KeyI, KeyJ, KeyK, KeyL, KeyM, KeyN, KeyO, KeyP, KeyQ, KeyR, KeyS, KeyT, KeyU, KeyV, KeyW, KeyX, KeyY, KeyZ]

  /** The digit keys, by the digit they type. */
  const DigitKeys: seq<Key> := [Key0, Key1, Key2, Key3, Key4, Key5, Key6, Key7, Key8, Key9]

  /** What the digit keys type with shift, by digit: `)` on 0, `!` on 1, and so on. */
  const ShiftedDigits: string := ")!@#$%^&*("

  /**
    Which key types `c` on a US keyboard, and whether with shift: letters (shift for
    capitals), digits and their shifted symbols, the eleven punctuation keys, white
    space, backspace and escape.
  */
  function UsLayout(c: char): Option<KeyStroke> {
    if c as int >= 128 then None
    else if 'a' <= c <= 'z' then Some(KeyStroke(Letters[c as int - 'a' as int], false))
    else if 'A' <= c <= 'Z' then Some(KeyStroke(Letters[c as int - 'A' as int], true))
    else if '0' <= c <= '9' then Some(KeyStroke(DigitKeys[c as int - '0' as int], false))
    else match c
      case ')' => Some(KeyStroke(Key0, true))
      case '!' => Some(KeyStroke(Key1, true))
      case '@' => Some(KeyStroke(Key2, true))
      case '#' => Some(KeyStroke(Key3, true))
      case '$' => Some(KeyStroke(Key4, true))
      case '%' => Some(KeyStroke(Key5, true))
      case '^' => Some(KeyStroke(Key6, true))
      case '&' => Some(KeyStroke(Key7, true))
      case '*' => Some(KeyStroke(Key8, true))
      case '(' => Some(KeyStroke(Key9, true))
      case '-' => Some(KeyStroke(KeyMinus, false))
      case '_' => Some(KeyStroke(KeyMinus, true))
      case '=' => Some(KeyStroke(KeyEqual, false))
      case '+' => Some(KeyStroke(KeyEqual, true))
      case '[' => Some(KeyStroke(KeyLeftBrace, false))
      case '{' => Some(KeyStroke(KeyLeftBrace, true))
      case ']' => Some(KeyStroke(KeyRightBrace, false))
      case '}' => Some(KeyStroke(KeyRightBrace, true))
      case '\\' => Some(KeyStroke(KeyBackslash, false))
      case '|' => Some(KeyStroke(KeyBackslash, true))
      case ';' => Some(KeyStroke(KeySemicolon, false))
      case ':' => Some(KeyStroke(KeySemicolon, true))
      case '\'' => Some(KeyStroke(KeyApostrophe, false))
      case '"' => Some(KeyStroke(KeyApostrophe, true))
      case '`' => Some(KeyStroke(KeyGrave, false))
      case '~' => Some(KeyStroke(KeyGrave, true))
      case ',' => Some(KeyStroke(KeyComma, false))
      case '<' => Some(KeyStroke(KeyComma, true))
      case '.' => Some(KeyStroke(KeyDot, false))
      case '>' => Some(KeyStroke(KeyDot, true))
      case '/' => Some(KeyStroke(KeySlash, false))
      case '?' => Some(KeyStroke(KeySlash, true))
      case ' ' => Some(KeyStroke(KeySpace, false))
      case '\t' => Some(KeyStroke(KeyTab, false))
      case '\n' => Some(KeyStroke(KeyEnter, false))
      case '\U{8}' => Some(KeyStroke(KeyBackspace, false))
      case '\U{1b}' => Some(KeyStroke(KeyEsc, false))
      case _ => None
  }

  /**
    The base each accented character is typed as, by code point. The tables list
    `æ` and `Æ` twice, each time with the same base, so every accented character has one.
  */
  function AccentBase(c: char): Option<char> {
    match c as int
      case 0x00E0 => Some('a') // à
      case 0x00E2 => Some('a') // â
      case 0x00E4 => Some('a') // ä
      case 0x00E8 => Some('e') // è
      case 0x00E9 => Some('e') // é
      case 0x00EA => Some('e') // ê
      case 0x00EB => Some('e') // ë
      case 0x00EE => Some('i') // î
      case 0x00EF => Some('i') // ï
      case 0x00F4 => Some('o') // ô
      case 0x00F6 => Some('o') // ö
      case 0x00F9 => Some('u') // ù
      case 0x00FB => Some('u') // û
      case 0x00FC => Some('u') // ü
      case 0x00FF => Some('y') // ÿ
      case 0x00E7 => Some('c') // ç
      case 0x0153 => Some('o') // œ
      case 0x00E6 => Some('a') // æ
      case 0x00C0 => Some('A') // À
      case 0x00C2 => Some('A') // Â
      case 0x00C4 => Some('A') // Ä
      case 0x00C8 => Some('E') // È
      case 0x00C9 => Some('E') // É
      case 0x00CA => Some('E') // Ê
      case 0x00CB => Some('E') // Ë
      case 0x00CE => Some('I') // Î
      case 0x00CF => Some('I') // Ï
      case 0x00D4 => Some('O') // Ô
      case 0x00D6 => Some('O') // Ö
      case 0x00D9 => Some('U') // Ù
      case 0x00DB => Some('U') // Û
      case 0x00DC => Some('U') // Ü
      case 0x0178 => Some('Y') // Ÿ
      case 0x00C7 => Some('C') // Ç
      case 0x0152 => Some('O') // Œ
      case 0x00C6 => Some('A') // Æ
      case 0x00F1 => Some('n') // ñ
      case 0x00D1 => Some('N') // Ñ
      case 0x00BF => Some('?') // ¿
      case 0x00A1 => Some('!') // ¡
      case 0x00DF => Some('s') // ß
      case 0x00E5 => Some('a') // å
      case 0x00C5 => Some('A') // Å
      case 0x00F8 => Some('o') // ø
      case 0x00D8 => Some('O') // Ø
      case 0x20AC => Some('e') // €
      case 0x00A3 => Some('l') // £
      case 0x00A5 => Some('y') // ¥
      case _ => None
  }

  // ----- The tables agree with the layout -----

  /** Each row names the key, and the shift, the US layout gives its character. */
  predicate RowsAgree(rows: seq<Row>) {
    forall i | 0 <= i < |rows| :: UsLayout(rows[i].0) == Some(KeyStroke(rows[i].1, rows[i].2))
  }

  /** The characters accents are typed as: letters and the two marks Spanish inverts. */
  predicate IsBase(c: char) {
    ('a' <= c <= 'z') || ('A' <= c <= 'Z') || c == '!' || c == '?'
  }

  /** Each accented character lies outside ASCII, and its base is a letter or mark, the one `AccentBase` gives. */
  predicate AccentsAgree(rows: seq<Accent>) {
    forall i | 0 <= i < |rows| :: rows[i].0 as int >= 128 && IsBase(rows[i].1) && AccentBase(rows[i].0) == Some(rows[i].1)
  }

  lemma RowsAgreeAppend(a: seq<Row>, b: seq<Row>)
    requires RowsAgree(a) && RowsAgree(b)
    ensures RowsAgree(a + b)
  {
    forall i | 0 <= i < |a + b|
      ensures UsLayout((a + b)[i].0) == Some(KeyStroke((a + b)[i].1, (a + b)[i].2))
    {
      if i >= |a| {
        assert (a + b)[i] == b[i - |a|];
      }
    }
  }

  // Each group is checked in slices of a few rows, which keeps every proof small.

  lemma LowercaseAgree1() ensures RowsAgree(LowercaseLetters[..9]) {}
  lemma LowercaseAgree2() ensures RowsAgree(LowercaseLetters[9..18]) {}
  lemma LowercaseAgree3() ensures RowsAgree(LowercaseLetters[18..]) {}

  lemma LowercaseAgree()
    ensures RowsAgree(LowercaseLetters)
  {
    LowercaseAgree1();
    LowercaseAgree2();
    LowercaseAgree3();
    assert LowercaseLetters == LowercaseLetters[..9] + LowercaseLetters[9..18] + LowercaseLetters[18..];
    RowsAgreeAppend(LowercaseLetters[..9], LowercaseLetters[9..18]);
    RowsAgreeAppend(LowercaseLetters[..9] + LowercaseLetters[9..18], LowercaseLetters[18..]);
  }

  lemma UppercaseAgree1() ensures RowsAgree(UppercaseLetters[..9]) {}
  lemma UppercaseAgree2() ensures RowsAgree(UppercaseLetters[9..18]) {}
  lemma UppercaseAgree3() ensures RowsAgree(UppercaseLetters[18..]) {}

  lemma UppercaseAgree()
    ensures RowsAgree(UppercaseLetters)
  {
    UppercaseAgree1();
    UppercaseAgree2();
    UppercaseAgree3();
    assert UppercaseLetters == UppercaseLetters[..9] + UppercaseLetters[9..18] + UppercaseLetters[18..];
    RowsAgreeAppend(UppercaseLetters[..9], UppercaseLetters[9..18]);
    RowsAgreeAppend(UppercaseLetters[..9] + UppercaseLetters[9..18], UppercaseLetters[18..]);
  }

  lemma NumbersAgree() ensures RowsAgree(Numbers) {}
  lemma SpecialAgree1() ensures RowsAgree(SpecialCharacters[..7]) {}
  lemma SpecialAgree2() ensures RowsAgree(SpecialCharacters[7..14]) {}
  lemma SpecialAgree3() ensures RowsAgree(SpecialCharacters[14..]) {}

  lemma SpecialAgree()
    ensures RowsAgree(SpecialCharacters)
  {
    SpecialAgree1();
    SpecialAgree2();
    SpecialAgree3();
    assert SpecialCharacters == SpecialCharacters[..7] + SpecialCharacters[7..14] + SpecialCharacters[14..];
    RowsAgreeAppend(SpecialCharacters[..7], SpecialCharacters[7..14]);
    RowsAgreeAppend(SpecialCharacters[..7] + SpecialCharacters[7..14], SpecialCharacters[14..]);
  }

  lemma PunctuationAgree1() ensures RowsAgree(CommonPunctuation[..6]) {}
  lemma PunctuationAgree2() ensures RowsAgree(CommonPunctuation[6..]) {}

  lemma PunctuationAgree()
    ensures RowsAgree(CommonPunctuation)
  {
    PunctuationAgree1();
    PunctuationAgree2();
    assert CommonPunctuation == CommonPunctuation[..6] + CommonPunctuation[6..];
    RowsAgreeAppend(CommonPunctuation[..6], CommonPunctuation[6..]);
  }

  lemma WhitespaceAgree() ensures RowsAgree(WhitespaceChars) {}
  lemma ActionKeysAgree() ensures RowsAgree(ActionKeys) {}

  /** Every row of the basic table is what the US layout says. */
  lemma BasicCharsAgree()
    ensures RowsAgree(BasicChars)
  {
    LowercaseAgree();
    UppercaseAgree();
    NumbersAgree();
    SpecialAgree();
    PunctuationAgree();
    WhitespaceAgree();
    ActionKeysAgree();
    RowsAgreeAppend(LowercaseLetters, UppercaseLetters);
    RowsAgreeAppend(LowercaseLetters + UppercaseLetters, Numbers);
    RowsAgreeAppend(LowercaseLetters + UppercaseLetters + Numbers, SpecialCharacters);
    RowsAgreeAppend(LowercaseLetters + UppercaseLetters + Numbers + SpecialCharacters, CommonPunctuation);
    RowsAgreeAppend(LowercaseLetters + UppercaseLetters + Numbers + SpecialCharacters + CommonPunctuation,
      WhitespaceChars);
    RowsAgreeAppend(LowercaseLetters + UppercaseLetters + Numbers + SpecialCharacters + CommonPunctuation
      + WhitespaceChars, ActionKeys);
  }

  lemma AccentsAgreeAppend(a: seq<Accent>, b: seq<Accent>)
    requires AccentsAgree(a) && AccentsAgree(b)
    ensures AccentsAgree(a + b)
  {
    forall i | 0 <= i < |a + b|
      ensures (a + b)[i].0 as int >= 128 && IsBase((a + b)[i].1) && AccentBase((a + b)[i].0) == Some((a + b)[i].1)
    {
      if i >= |a| {
        assert (a + b)[i] == b[i - |a|];
      }
    }
  }

  lemma FrenchAgree1() ensures AccentsAgree(FrenchAccents[..9]) {}
  lemma FrenchAgree2() ensures AccentsAgree(FrenchAccents[9..]) {}

  lemma FrenchAgree()
    ensures AccentsAgree(FrenchAccents)
  {
    FrenchAgree1();
    FrenchAgree2();
    assert FrenchAccents == FrenchAccents[..9] + FrenchAccents[9..];
    AccentsAgreeAppend(FrenchAccents[..9], FrenchAccents[9..]);
  }

  lemma UppercaseAccentsAgree1() ensures AccentsAgree(UppercaseAccents[..9]) {}
  lemma UppercaseAccentsAgree2() ensures AccentsAgree(UppercaseAccents[9..]) {}

  lemma UppercaseAccentsAgree()
    ensures AccentsAgree(UppercaseAccents)
  {
    UppercaseAccentsAgree1();
    UppercaseAccentsAgree2();
    assert UppercaseAccents == UppercaseAccents[..9] + UppercaseAccents[9..];
    AccentsAgreeAppend(UppercaseAccents[..9], UppercaseAccents[9..]);
  }
  lemma SpanishAgree() ensures AccentsAgree(SpanishChars) {}
  lemma GermanAgree() ensures AccentsAgree(GermanChars) {}
  lemma ScandinavianAgree1() ensures AccentsAgree(ScandinavianChars[..3]) {}
  lemma ScandinavianAgree2() ensures AccentsAgree(ScandinavianChars[3..]) {}

  lemma ScandinavianAgree()
    ensures AccentsAgree(ScandinavianChars)
  {
    ScandinavianAgree1();
    ScandinavianAgree2();
    assert ScandinavianChars == ScandinavianChars[..3] + ScandinavianChars[3..];
    AccentsAgreeAppend(ScandinavianChars[..3], ScandinavianChars[3..]);
  }
  lemma OtherEuropeanAgree() ensures AccentsAgree(OtherEuropeanChars) {}

  /** Every accented character lies outside ASCII and has a letter or mark as its base, the one `AccentBase` gives. */
  lemma UnicodeMappingsAgree()
    ensures AccentsAgree(UnicodeMappings)
  {
    FrenchAgree();
    UppercaseAccentsAgree();
    SpanishAgree();
    GermanAgree();
    ScandinavianAgree();
    OtherEuropeanAgree();
    AccentsAgreeAppend(FrenchAccents, UppercaseAccents);
    AccentsAgreeAppend(FrenchAccents + UppercaseAccents, SpanishChars);
    AccentsAgreeAppend(FrenchAccents + UppercaseAccents + SpanishChars, GermanChars);
    AccentsAgreeAppend(FrenchAccents + UppercaseAccents + SpanishChars + GermanChars, ScandinavianChars);
    AccentsAgreeAppend(FrenchAccents + UppercaseAccents + SpanishChars + GermanChars + ScandinavianChars,
      OtherEuropeanChars);
  }

  /** Where a base character sits in the basic table. */
  function BaseRow(c: char): int {
    if 'a' <= c <= 'z' then c as int - 'a' as int
    else if 'A' <= c <= 'Z' then 26 + c as int - 'A' as int
    else if c == '!' then 62
    else if c == '?' then 81
    else -1
  }

  /** Every base character is in the basic table, at `BaseRow`. */
  lemma BaseRows(c: char)
    requires IsBase(c)
    ensures 0 <= BaseRow(c) < |BasicChars| && BasicChars[BaseRow(c)].0 == c
  {
    var k := BaseRow(c);
    if k < 26 {
      LowercaseInOrder();
      assert BasicChars[k] == LowercaseLetters[k];
    } else if k < 52 {
      UppercaseInOrder();
      assert BasicChars[k] == UppercaseLetters[k - 26];
    } else {
      assert BasicChars[k] == SpecialCharacters[k - 62];
    }
  }

  /** The letter groups list the alphabet in order. */
  lemma LowercaseInOrder()
    ensures forall k | 0 <= k < 26 :: LowercaseLetters[k].0 == ('a' as int + k) as char
  {
  }

  lemma UppercaseInOrder()
    ensures forall k | 0 <= k < 26 :: UppercaseLetters[k].0 == ('A' as int + k) as char
  {
  }

  /** `c` is the character of some row of `rows`. */
  predicate Listed<T>(rows: seq<(char, T)>, c: char) {
    exists i | 0 <= i < |rows| :: rows[i].0 == c
  }

  /** The pairs view of basic rows, so that `Listed` applies to them. */
  function Chars(rows: seq<Row>): (r: seq<(char, KeyStroke)>)
    ensures |r| == |rows| && forall i | 0 <= i < |rows| :: r[i] == (rows[i].0, KeyStroke(rows[i].1, rows[i].2))
  {
    seq(|rows|, i requires 0 <= i < |rows| => (rows[i].0, KeyStroke(rows[i].1, rows[i].2)))
  }

  /**
    What an entry of the finished map may be: for an ASCII character, the key `layout`
    gives it; for another, the key `layout` gives a base it is listed with.
  */
  predicate EntryOk(layout: char -> Option<KeyStroke>, accents: seq<Accent>, c: char, stroke: KeyStroke) {
    if c as int < 128 then layout(c) == Some(stroke)
    else exists j | 0 <= j < |accents| :: accents[j].0 == c && layout(accents[j].1) == Some(stroke)
  }

  /** The first loop of `create_key_map`: insert every basic row. */
  method InsertRows(rows: seq<Row>, layout: char -> Option<KeyStroke>) returns (keyMap: map<char, KeyStroke>)
    requires forall i | 0 <= i < |rows| ::
      rows[i].0 as int < 128 && layout(rows[i].0) == Some(KeyStroke(rows[i].1, rows[i].2))
    ensures forall c | c in keyMap :: Listed(Chars(rows), c) && c as int < 128 && layout(c) == Some(keyMap[c])
    ensures forall i | 0 <= i < |rows| :: rows[i].0 in keyMap
  {
    var basic := Chars(rows);
    keyMap := map[];
    for i := 0 to |rows|
      invariant forall c | c in keyMap :: Listed(basic, c) && c as int < 128 && layout(c) == Some(keyMap[c])
      invariant forall j | 0 <= j < i :: rows[j].0 in keyMap
    {
      var (c, key, shift) := rows[i];
      assert basic[i].0 == c;
      keyMap := keyMap[c := KeyStroke(key, shift)];
    }
  }

  /**
    The second loop of `create_key_map`: give each accented character the entry of
    its base character, if the base has one. With every base present and every
    accented character outside ASCII, each accented character is added with the key
    of its base, and the ASCII entries stay as they were.
  */
  method InsertAccents(keyMap0: map<char, KeyStroke>, basic: seq<(char, KeyStroke)>, accents: seq<Accent>,
                       layout: char -> Option<KeyStroke>)
    returns (keyMap: map<char, KeyStroke>)
    requires forall c | c in keyMap0 :: Listed(basic, c) && c as int < 128 && layout(c) == Some(keyMap0[c])
    requires forall i | 0 <= i < |accents| :: accents[i].0 as int >= 128 && accents[i].1 in keyMap0
    ensures forall c | c in keyMap ::
      (Listed(basic, c) || Listed(accents, c)) && EntryOk(layout, accents, c, keyMap[c])
    ensures forall c | c in keyMap0 :: c in keyMap
    ensures forall i | 0 <= i < |accents| :: accents[i].0 in keyMap
  {
    keyMap := keyMap0;
    for i := 0 to |accents|
      invariant forall c | c in keyMap ::
        (Listed(basic, c) || Listed(accents, c)) && EntryOk(layout, accents, c, keyMap[c])
      invariant forall c | c in keyMap0 :: c in keyMap && keyMap[c] == keyMap0[c]
      invariant forall j | 0 <= j < i :: accents[j].0 in keyMap
    {
      var (accentedChar, baseChar) := accents[i];
      if baseChar in keyMap {
        assert EntryOk(layout, accents, accentedChar, keyMap[baseChar]);
        keyMap := keyMap[accentedChar := keyMap[baseChar]];
      }
    }
  }

  /**
    What `create_key_map` promises and the keyboard relies on: every character of
    both tables is mapped, each ASCII one to the key the US layout gives it, and
    each accented one to the entry of the base it is listed with (every listing of
    it, since its listings agree).
  */
  predicate KeyMapOk(keyMap: map<char, KeyStroke>) {
    && (forall c | c in keyMap && c as int < 128 :: UsLayout(c) == Some(keyMap[c]))
    && (forall i | 0 <= i < |BasicChars| :: BasicChars[i].0 in keyMap)
    && (forall i | 0 <= i < |UnicodeMappings| ::
          UnicodeMappings[i].0 in keyMap && UnicodeMappings[i].1 in keyMap
          && keyMap[UnicodeMappings[i].0] == keyMap[UnicodeMappings[i].1])
  }

  /** `create_key_map`. */
  method CreateKeyMap() returns (keyMap: map<char, KeyStroke>)
    ensures forall c | c in keyMap ::
      (Listed(Chars(BasicChars), c) || Listed(UnicodeMappings, c)) && EntryOk(UsLayout, UnicodeMappings, c, keyMap[c])
    ensures forall i | 0 <= i < |BasicChars| :: BasicChars[i].0 in keyMap
    ensures forall i | 0 <= i < |UnicodeMappings| :: UnicodeMappings[i].0 in keyMap
    ensures KeyMapOk(keyMap)
  {
    BasicCharsAgree();
    UnicodeMappingsAgree();
    var basicMap := InsertRows(BasicChars, UsLayout);
    forall i | 0 <= i < |UnicodeMappings|
      ensures UnicodeMappings[i].1 in basicMap
    {
      BaseRows(UnicodeMappings[i].1);
    }
    keyMap := InsertAccents(basicMap, Chars(BasicChars), UnicodeMappings, UsLayout);
    forall i | 0 <= i < |UnicodeMappings|
      ensures UnicodeMappings[i].1 in keyMap && keyMap[UnicodeMappings[i].0] == keyMap[UnicodeMappings[i].1]
    {
      var (c, base) := UnicodeMappings[i];
      var j :| 0 <= j < |UnicodeMappings| && UnicodeMappings[j].0 == c && UsLayout(UnicodeMappings[j].1) == Some(keyMap[c]);
      assert UnicodeMappings[j].1 == base;
      BaseRows(base);
      assert BasicChars[BaseRow(base)].0 in keyMap;
      UsLayoutAscii(base);
    }
  }

  // ----- Facts about the layout and the finished map -----

  /** A capital is typed with the key of its small letter, with shift; a small letter without. */
  lemma CapitalsUseShift(c: char)
    requires 'a' <= c <= 'z'
    ensures UsLayout(c).Some? && !UsLayout(c).value.shift
    ensures UsLayout((c as int - 32) as char) == Some(KeyStroke(UsLayout(c).value.key, true))
  {
  }

  /** The shifted symbols of the digit row are typed with their digit's key and shift. */
  lemma ShiftedDigitRow(d: nat)
    requires d < 10
    ensures UsLayout(('0' as int + d) as char) == Some(KeyStroke(DigitKeys[d], false))
    ensures UsLayout(ShiftedDigits[d]) == Some(KeyStroke(DigitKeys[d], true))
  {
  }

  /** Only ASCII characters have a key of their own. */
  lemma UsLayoutAscii(c: char)
    requires UsLayout(c).Some?
    ensures c as int < 128
  {
  }

  /** A character of the basic table is in a consistent map, with the layout's stroke. */
  lemma BasicCharMapped(keyMap: map<char, KeyStroke>, i: nat, stroke: KeyStroke)
    requires KeyMapOk(keyMap)
    requires i < |BasicChars| && BasicChars[i].0 as int < 128 && UsLayout(BasicChars[i].0) == Some(stroke)
    ensures BasicChars[i].0 in keyMap && keyMap[BasicChars[i].0] == stroke
  {
  }

  /** The shortcut digits are in the map, unshifted, on their own keys. */
  lemma DigitsMapped(keyMap: map<char, KeyStroke>)
    requires KeyMapOk(keyMap)
    ensures '1' in keyMap && '2' in keyMap && '3' in keyMap && '4' in keyMap
    ensures keyMap['1'] == KeyStroke(Key1, false) && keyMap['2'] == KeyStroke(Key2, false)
    ensures keyMap['3'] == KeyStroke(Key3, false) && keyMap['4'] == KeyStroke(Key4, false)
  {
    assert BasicChars[53].0 == '1';
    BasicCharMapped(keyMap, 53, KeyStroke(Key1, false));
    assert BasicChars[54].0 == '2';
    BasicCharMapped(keyMap, 54, KeyStroke(Key2, false));
    assert BasicChars[55].0 == '3';
    BasicCharMapped(keyMap, 55, KeyStroke(Key3, false));
    assert BasicChars[56].0 == '4';
    BasicCharMapped(keyMap, 56, KeyStroke(Key4, false));
  }

  /** Where backspace and escape sit in the basic table. */
  lemma EditKeysAt()
    ensures BasicChars[97].0 == '\U{8}' && BasicChars[98].0 == '\U{1b}'
  {
    assert BasicChars[97] == ActionKeys[0];
    assert BasicChars[98] == ActionKeys[1];
  }

  /** Backspace and escape are in the map, unshifted, on their own keys. */
  lemma EditKeysMapped(keyMap: map<char, KeyStroke>)
    requires KeyMapOk(keyMap)
    ensures '\U{8}' in keyMap && '\U{1b}' in keyMap
    ensures keyMap['\U{8}'] == KeyStroke(KeyBackspace, false)
    ensures keyMap['\U{1b}'] == KeyStroke(KeyEsc, false)
  {
    EditKeysAt();
    BasicCharMapped(keyMap, 97, KeyStroke(KeyBackspace, false));
    BasicCharMapped(keyMap, 98, KeyStroke(KeyEsc, false));
  }

  /** An accented character of the table is in a consistent map, with the stroke of its base. */
  lemma AccentMapped(keyMap: map<char, KeyStroke>, i: nat, stroke: KeyStroke)
    requires KeyMapOk(keyMap)
    requires i < |UnicodeMappings| && UnicodeMappings[i].1 as int < 128 && UsLayout(UnicodeMappings[i].1) == Some(stroke)
    ensures UnicodeMappings[i].0 in keyMap && keyMap[UnicodeMappings[i].0] == stroke
  {
  }

  /** Where `é`, `É` and `¿` sit in the accent table. */
  lemma AccentsAt()
    ensures UnicodeMappings[4] == ('é', 'e') && UnicodeMappings[22] == ('É', 'E') && UnicodeMappings[38] == ('¿', '?')
  {
    assert UnicodeMappings[4] == FrenchAccents[4];
    assert UnicodeMappings[22] == UppercaseAccents[4];
    assert UnicodeMappings[38] == SpanishChars[2];
  }

  /**
    Accents are typed as their bare letter: `é` as `e`, `É` as shifted `e`; the
    Spanish marks as the marks they invert, `¿` as shifted slash.
  */
  lemma AccentsTypedAsBase(keyMap: map<char, KeyStroke>)
    requires KeyMapOk(keyMap)
    ensures 'é' in keyMap && keyMap['é'] == KeyStroke(KeyE, false)
    ensures 'É' in keyMap && keyMap['É'] == KeyStroke(KeyE, true)
    ensures '¿' in keyMap && keyMap['¿'] == KeyStroke(KeySlash, true)
  {
    AccentsAt();
    AccentMapped(keyMap, 4, KeyStroke(KeyE, false));
    AccentMapped(keyMap, 22, KeyStroke(KeyE, true));
    AccentMapped(keyMap, 38, KeyStroke(KeySlash, true));
  }

  /** A character of a table has a key of its own or a base. */
  lemma ListedHasKey(c: char)
    ensures Listed(Chars(BasicChars), c) ==> UsLayout(c).Some?
    ensures Listed(UnicodeMappings, c) ==> AccentBase(c).Some?
  {
    if Listed(Chars(BasicChars), c) {
      var i :| 0 <= i < |Chars(BasicChars)| && Chars(BasicChars)[i].0 == c;
      BasicCharsAgree();
      assert BasicChars[i].0 == c;
    }
    if Listed(UnicodeMappings, c) {
      var j :| 0 <= j < |UnicodeMappings| && UnicodeMappings[j].0 == c;
      UnicodeMappingsAgree();
    }
  }

  /**
    A map holding only listed characters, as `create_key_map`'s does, lacks every
    character that has neither a key of its own nor a base.
  */
  lemma UnlistedUnmapped(keyMap: map<char, KeyStroke>, c: char)
    requires forall c' | c' in keyMap :: Listed(Chars(BasicChars), c') || Listed(UnicodeMappings, c')
    requires UsLayout(c).None? && AccentBase(c).None?
    ensures c !in keyMap
  {
    ListedHasKey(c);
  }

  /** The shortcut digits, backspace and escape are in the map, unshifted, on their own keys. */
  lemma MapKeys(keyMap: map<char, KeyStroke>)
    requires KeyMapOk(keyMap)
    ensures '1' in keyMap && '2' in keyMap && '3' in keyMap && '4' in keyMap
    ensures '\U{8}' in keyMap && '\U{1b}' in keyMap
    ensures keyMap['1'] == KeyStroke(Key1, false) && keyMap['2'] == KeyStroke(Key2, false)
    ensures keyMap['3'] == KeyStroke(Key3, false) && keyMap['4'] == KeyStroke(Key4, false)
    ensures keyMap['\U{8}'] == KeyStroke(KeyBackspace, false)
    ensures keyMap['\U{1b}'] == KeyStroke(KeyEsc, false)
  {
    DigitsMapped(keyMap);
    EditKeysMapped(keyMap);
  }

}
