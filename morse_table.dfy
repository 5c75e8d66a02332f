/**
 * The fixed character-to-pattern table of the encoder (main.rs:15-53) and the
 * ASCII upper-casing applied before every lookup (main.rs:91).
 *
 * A pattern is a string over '.', '-' and ' ': the 26 letters and 10 figures
 * of International Morse code (ITU-R M.1677-1, Part I, section 1.1) plus the
 * space character, whose pattern is a single blank.
 */
module MorseTable {
  import opened Wrappers

  /** Rust's `char::to_ascii_uppercase`: only 'a'..'z' change. */
  function ToAsciiUpper(c: char): char {
    if 'a' <= c <= 'z' then (c as int - 32) as char else c
  }

  predicate IsLetter(c: char) { 'A' <= c <= 'Z' }

  predicate IsDigit(c: char) { '0' <= c <= '9' }

  /**
   * The table `MorseCode::new` builds (main.rs:15-53), listed in code-point
   * order; None for a character that is not a key.
   */
  function Pattern(c: char): Option<string> {
    match c
    case ' ' => Some(" ")
    case '0' => Some("-----")
    case '1' => Some(".----")
    case '2' => Some("..---")
    case '3' => Some("...--")
    case '4' => Some("....-")
    case '5' => Some(".....")
    case '6' => Some("-....")
    case '7' => Some("--...")
    case '8' => Some("---..")
    case '9' => Some("----.")
    case 'A' => Some(".-")
    case 'B' => Some("-...")
    case 'C' => Some("-.-.")
    case 'D' => Some("-..")
    case 'E' => Some(".")
    case 'F' => Some("..-.")
    case 'G' => Some("--.")
    case 'H' => Some("....")
    case 'I' => Some("..")
    case 'J' => Some(".---")
    case 'K' => Some("-.-")
    case 'L' => Some(".-..")
    case 'M' => Some("--")
    case 'N' => Some("-.")
    case 'O' => Some("---")
    case 'P' => Some(".--.")
    case 'Q' => Some("--.-")
    case 'R' => Some(".-.")
    case 'S' => Some("...")
    case 'T' => Some("-")
    case 'U' => Some("..-")
    case 'V' => Some("...-")
    case 'W' => Some(".--")
    case 'X' => Some("-..-")
    case 'Y' => Some("-.--")
    case 'Z' => Some("--..")
    case _ => None
  }

  /** `m` maps exactly the table's keys, each to its pattern. */
  ghost predicate IsTable(m: map<char, string>) {
    forall c :: (if c in m then Some(m[c]) else None) == Pattern(c)
  }

  /**
   * The map the 37 inserts of `MorseCode::new` leave behind, written in their
   * order. It only serves the proof of `FillTable` (module Transmitter), which
   * performs the inserts; the table itself is `Pattern`.
   */
  const Inserted: map<char, string> := map[
      'A' := ".-",
      'B' := "-...",
      'C' := "-.-.",
      'D' := "-..",
      'E' := ".",
      'F' := "..-.",
      'G' := "--.",
      'H' := "....",
      'I' := "..",
      'J' := ".---",
      'K' := "-.-",
      'L' := ".-..",
      'M' := "--",
      'N' := "-.",
      'O' := "---",
      'P' := ".--.",
      'Q' := "--.-",
      'R' := ".-.",
      'S' := "...",
      'T' := "-",
      'U' := "..-",
      'V' := "...-",
      'W' := ".--",
      'X' := "-..-",
      'Y' := "-.--",
      'Z' := "--..",
      '1' := ".----",
      '2' := "..---",
      '3' := "...--",
      '4' := "....-",
      '5' := ".....",
      '6' := "-....",
      '7' := "--...",
      '8' := "---..",
      '9' := "----.",
      '0' := "-----",
      ' ' := " "
    ]

  /** Every inserted key maps to its pattern. */
  lemma InsertedKeys()
    ensures forall c | c in Inserted :: Pattern(c) == Some(Inserted[c])
  {
    InsertedLetters();
    InsertedOthers();
  }

  lemma InsertedLetters()
    ensures forall c | c in Inserted && IsLetter(c) :: Pattern(c) == Some(Inserted[c])
  {
  }

  lemma InsertedOthers()
    ensures forall c | c in Inserted && !IsLetter(c) :: Pattern(c) == Some(Inserted[c])
  {
  }

  /** Nothing outside the inserted keys has a pattern. */
  lemma InsertedOnly()
    ensures forall c | c !in Inserted :: Pattern(c) == None
  {
  }

  /** The inserts build exactly the table. */
  lemma InsertedIsTable()
    ensures IsTable(Inserted)
  {
    InsertedKeys();
    InsertedOnly();
  }

  /** The lookup `transmit_char` performs: upper-case, then consult the table. */
  function Lookup(c: char): Option<string> {
    Pattern(ToAsciiUpper(c))
  }

  /** The table's keys, in ascending order of code point. */
  const Keys: string := " 0123456789ABCDEFGHIJKLMNOPQRSTUVWXYZ"

  /** A symbol `transmit_char` plays: a dot, a dash or a blank. */
  predicate IsSymbol(c: char) {
    c == '.' || c == '-' || c == ' '
  }

  predicate IsDotDash(p: string) {
    forall i | 0 <= i < |p| :: p[i] == '.' || p[i] == '-'
  }

  /** The key set is exactly the letters A-Z, the digits 0-9 and the space. */
  lemma TableKeys(c: char)
    ensures Pattern(c).Some? <==> IsLetter(c) || IsDigit(c) || c == ' '
  {
  }

  /** Keys lists exactly the table's domain. */
  lemma KeysAreDomain(c: char)
    ensures Pattern(c).Some? <==> c in Keys
  {
    TableKeys(c);
    KeysSpan(c);
  }

  /** Keys is the space, the figures and the letters. */
  lemma KeysSpan(c: char)
    ensures c in Keys <==> IsLetter(c) || IsDigit(c) || c == ' '
  {
  }

  /** A string whose neighbours ascend ascends throughout. */
  lemma {:induction false} AscendingNeighbours(s: string)
    requires forall i | 0 < i < |s| :: s[i - 1] < s[i]
    ensures forall i, j | 0 <= i < j < |s| :: s[i] < s[j]
  {
    if |s| > 1 {
      var t := s[..|s| - 1];
      AscendingNeighbours(t);
      forall i, j | 0 <= i < j < |s|
        ensures s[i] < s[j]
      {
        if j < |s| - 1 {
          assert s[i] == t[i] && s[j] == t[j];
        } else if i < j - 1 {
          assert s[i] == t[i] && s[j - 1] == t[j - 1];
        }
      }
    }
  }

  /** Keys lists 37 distinct characters, so the table has 37 entries. */
  lemma KeyCount()
    ensures |Keys| == 37
    ensures forall i, j | 0 <= i < j < |Keys| :: Keys[i] != Keys[j]
  {
    AscendingNeighbours(Keys);
  }

  /**
   * Every letter or figure pattern is one to five dots and dashes (every
   * figure exactly five); the space maps to a single blank.
   */
  lemma PatternShape(c: char)
    requires Pattern(c).Some?
    ensures c == ' ' ==> Pattern(c).value == " "
    ensures c != ' ' ==> 1 <= |Pattern(c).value| <= 5 && IsDotDash(Pattern(c).value)
    ensures IsDigit(c) ==> |Pattern(c).value| == 5
  {
  }

  /**
   * No pattern holds a symbol other than '.', '-' or ' ', so the catch-all arm
   * of the symbol match in `transmit_char` (main.rs:97) never runs.
   */
  lemma SymbolsAreKnown(c: char, i: int)
    requires Pattern(c).Some? && 0 <= i < |Pattern(c).value|
    ensures IsSymbol(Pattern(c).value[i])
  {
    PatternShape(c);
  }

  /** No two keys share a pattern. */
  lemma PatternInjective(a: char, b: char)
    requires Pattern(a).Some? && Pattern(a) == Pattern(b)
    ensures a == b
  {
  }

  /** A key of `keys` whose pattern is `p`, if there is one. */
  function Find(p: string, keys: string): (r: Option<char>)
    ensures r.Some? ==> r.value in keys && Pattern(r.value) == Some(p)
    ensures r.None? ==> forall k | k in keys :: Pattern(k) != Some(p)
  {
    if keys == [] then None
    else if Pattern(keys[0]) == Some(p) then Some(keys[0])
    else Find(p, keys[1..])
  }

  /** Reads a pattern back to the key it encodes, if any key has it. */
  function Decode(p: string): Option<char> {
    Find(p, Keys)
  }

  /** Decode inverts the table: it finds exactly the key whose pattern is given. */
  lemma DecodeInvertsPattern(c: char, p: string)
    ensures Decode(p) == Some(c) <==> Pattern(c) == Some(p)
  {
    if Pattern(c) == Some(p) {
      KeysAreDomain(c);
      var r := Decode(p);
      assert r.Some?;
      PatternInjective(c, r.value);
    }
  }

  /** Upper-casing before the lookup makes it blind to ASCII case. */
  lemma LookupIgnoresAsciiCase(c: char)
    requires IsLetter(c)
    ensures Lookup((c as int + 32) as char) == Lookup(c) == Pattern(c)
  {
  }

  /** Characters outside 'a'..'z' are looked up as they are, non-ASCII included. */
  lemma LookupOtherAsIs(c: char)
    requires !('a' <= c <= 'z')
    ensures Lookup(c) == Pattern(c)
  {
  }
}
