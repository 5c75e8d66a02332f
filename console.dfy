/**
 * The quit test of the interactive loop in `main` (main.rs:124-132): the line
 * read from standard input is trimmed of Unicode white space at both ends
 * (Rust's `str::trim`) and compared with "q" ignoring ASCII case
 * (`str::eq_ignore_ascii_case`); any other trimmed line is transmitted.
 */
module Console {
  import opened Signals
  import opened Encoding
  import opened Transmitter

  /** Rust's `char::is_whitespace`: the characters with the Unicode White_Space property. */
  predicate IsWhitespace(c: char) {
    || '\U{0009}' <= c <= '\U{000D}'
    || c == '\U{0020}'
    || c == '\U{0085}'
    || c == '\U{00A0}'
    || c == '\U{1680}'
    || '\U{2000}' <= c <= '\U{200A}'
    || c == '\U{2028}'
    || c == '\U{2029}'
    || c == '\U{202F}'
    || c == '\U{205F}'
    || c == '\U{3000}'
  }

  /** `str::trim_start`: drops the leading white space. */
  function TrimStart(s: string): string {
    if s != [] && IsWhitespace(s[0]) then TrimStart(s[1..]) else s
  }

  /** `str::trim_end`: drops the trailing white space. */
  function TrimEnd(s: string): string {
    if s != [] && IsWhitespace(s[|s| - 1]) then TrimEnd(s[..|s| - 1]) else s
  }

  /**
   * TrimStart keeps a suffix of the string that is empty or starts with a
   * character that is not white space, and everything before it is white space.
   */
  lemma {:induction false} TrimStartKeeps(s: string)
    ensures var r := TrimStart(s);
      && |r| <= |s| && r == s[|s| - |r|..]
      && (forall i | 0 <= i < |s| - |r| :: IsWhitespace(s[i]))
      && (r == [] || !IsWhitespace(r[0]))
  {
    if s != [] && IsWhitespace(s[0]) {
      TrimStartKeeps(s[1..]);
      var r := TrimStart(s);
      assert r == TrimStart(s[1..]);
      forall i | 1 <= i < |s| - |r|
        ensures IsWhitespace(s[i])
      {
        assert s[i] == s[1..][i - 1];
      }
    }
  }

  /**
   * TrimEnd keeps a prefix of the string that is empty or ends with a
   * character that is not white space, and everything after it is white space.
   */
  lemma {:induction false} TrimEndKeeps(s: string)
    ensures var r := TrimEnd(s);
      && |r| <= |s| && r == s[..|r|]
      && (forall i | |r| <= i < |s| :: IsWhitespace(s[i]))
      && (r == [] || !IsWhitespace(r[|r| - 1]))
  {
    if s != [] && IsWhitespace(s[|s| - 1]) {
      var init := s[..|s| - 1];
      TrimEndKeeps(init);
      var r := TrimEnd(s);
      assert r == TrimEnd(init);
      assert r == init[..|r|] == s[..|r|];
      forall i | |r| <= i < |s| - 1
        ensures IsWhitespace(s[i])
      {
        assert s[i] == init[i];
      }
    }
  }

  /** `str::trim`: the line without white space at either end. */
  function Trim(s: string): string {
    TrimEnd(TrimStart(s))
  }

  /** `char::to_ascii_lowercase`: only 'A'..'Z' change. */
  function ToAsciiLower(c: char): char {
    if 'A' <= c <= 'Z' then (c as int + 32) as char else c
  }

  /** `str::eq_ignore_ascii_case`: same length, and equal position by position once ASCII letters are lower-cased. */
  predicate EqIgnoreAsciiCase(a: string, b: string) {
    |a| == |b| && forall i | 0 <= i < |a| :: ToAsciiLower(a[i]) == ToAsciiLower(b[i])
  }

  /** The test of main.rs:126-127 that ends the loop. */
  predicate IsQuit(line: string) {
    EqIgnoreAsciiCase(Trim(line), "q")
  }

  /**
   * Trim keeps the piece of the line between the white space it cuts off at
   * the front and at the back; the piece starts and ends with a character
   * that is not white space.
   */
  lemma TrimShape(line: string)
    ensures var i, t := |line| - |TrimStart(line)|, Trim(line);
      && 0 <= i && i + |t| <= |line| && t == line[i..i + |t|]
      && (forall k | 0 <= k < i :: IsWhitespace(line[k]))
      && (forall k | i + |t| <= k < |line| :: IsWhitespace(line[k]))
      && (t != [] ==> !IsWhitespace(t[0]) && !IsWhitespace(t[|t| - 1]))
  {
    var s := TrimStart(line);
    var t := TrimEnd(s);
    var i := |line| - |s|;
    TrimStartKeeps(line);
    TrimEndKeeps(s);
    assert s == line[i..];
    assert t == line[i..i + |t|];
    forall k | i + |t| <= k < |line|
      ensures IsWhitespace(line[k])
    {
      assert line[k] == s[k - i];
    }
    if t != [] {
      assert t[0] == s[0];
      assert !IsWhitespace(t[|t| - 1]);
    }
  }

  /** The loop stops exactly when the trimmed line is "q" or "Q". */
  lemma QuitIff(line: string)
    ensures IsQuit(line) <==> Trim(line) == "q" || Trim(line) == "Q"
  {
    var t := Trim(line);
    if IsQuit(line) {
      assert ToAsciiLower(t[0]) == 'q';
      assert t == [t[0]];
    }
  }

  /** The letter quits in either case. */
  lemma QuitEitherCase()
    ensures IsQuit("q") && IsQuit("Q")
  {
  }

  /** A line break and blanks around the letter do not matter. */
  lemma QuitAmidBlanks()
    ensures IsQuit(" q\n")
  {
    assert TrimStart(" q\n") == "q\n" by { assert " q\n"[1..] == "q\n"; }
    assert TrimEnd("q\n") == "q" by { assert "q\n"[..1] == "q"; }
  }

  /**
   * An empty line does not quit, with or without its line break: it is
   * transmitted, as nothing. At the end of input the line read is "".
   */
  lemma EmptyLineGoesOn()
    ensures !IsQuit("\n")
    ensures !IsQuit("")
  {
    assert TrimStart("\n") == "" by { assert "\n"[1..] == ""; }
  }

  /** A longer word starting with the letter does not quit. */
  lemma WordGoesOn()
    ensures !IsQuit("quit")
  {
    QuitIff("quit");
  }

  /**
   * One pass of the loop in `main` (main.rs:126-132) on a line already read:
   * quit without touching the LED, or transmit the trimmed line.
   */
  method HandleLine(morse: MorseCode, line: string) returns (quit: bool, r: IoResult)
    requires morse.Valid()
    modifies morse
    ensures quit <==> IsQuit(line)
    ensures quit ==> r == Ok && morse.trace == old(morse.trace) && morse.writesLeft == old(morse.writesLeft)
    ensures !quit ==> morse.Did(Encode(Trim(line)), old(morse.trace), old(morse.writesLeft), r)
  {
    var text := Trim(line);
    if EqIgnoreAsciiCase(text, "q") {
      return true, Ok;
    }
    r := morse.TransmitText(text);
    quit := false;
  }
}
