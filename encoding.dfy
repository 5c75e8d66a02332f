/**
 * The run of sink events that `dot`, `dash`, `transmit_char` and
 * `transmit_text` intend to produce (main.rs:74-110), as pure functions of
 * their input, with the timing the encoder promises.
 *
 * Timing is in units of `unit_delay`: a dot is lit for 1 unit, a dash for 3,
 * each is followed by 1 dark unit, and every pattern by 2 more, so letters are
 * 3 dark units apart. A blank inside a pattern sleeps 3 units, so the space
 * character costs 3 + 2 units and a word gap comes out at 1 + 2 + 3 + 2 = 8
 * units rather than the 7 of ITU-R M.1677-1, section 2.
 */
module Encoding {
  import opened Wrappers
  import opened MorseTable
  import opened Signals

  /** `dot` (main.rs:74-80). */
  const DotEvents: seq<Event> := [On, Wait(1), Off, Wait(1)]

  /** `dash` (main.rs:82-88). */
  const DashEvents: seq<Event> := [On, Wait(3), Off, Wait(1)]

  /** One symbol of a pattern (main.rs:93-98); an unknown symbol does nothing. */
  function SymbolEvents(s: char): seq<Event> {
    match s
    case '.' => DotEvents
    case '-' => DashEvents
    case ' ' => [Wait(3)]
    case _ => []
  }

  /** The symbols of a pattern, one after the other (main.rs:92-99). */
  function PatternEvents(p: string): seq<Event> {
    if p == [] then [] else PatternEvents(p[..|p| - 1]) + SymbolEvents(p[|p| - 1])
  }

  /** `transmit_char` (main.rs:90-103): nothing at all for a character with no pattern. */
  function EncodeChar(c: char): seq<Event> {
    match Lookup(c)
    case None => []
    case Some(p) => PatternEvents(p) + [Wait(2)]
  }

  /** The first k + 1 symbols of a pattern play the first k, then symbol k. */
  lemma PatternEventsStep(p: string, k: nat)
    requires k < |p|
    ensures PatternEvents(p[..k + 1]) == PatternEvents(p[..k]) + SymbolEvents(p[k])
  {
    assert p[..k + 1][..k] == p[..k];
  }

  /** A pattern plays as its first k symbols followed by the rest. */
  lemma PatternEventsSplit(p: string, k: nat)
    requires k <= |p|
    ensures PatternEvents(p) == PatternEvents(p[..k]) + PatternEvents(p[k..])
  {
    assert p == p[..k] + p[k..];
    PatternEventsAppend(p[..k], p[k..]);
  }

  /** The run of a character, read off any map that holds exactly the table. */
  lemma EncodeCharFrom(m: map<char, string>, c: char)
    requires IsTable(m)
    ensures var k := ToAsciiUpper(c);
      EncodeChar(c) == if k in m then PatternEvents(m[k]) + [Wait(2)] else []
  {
    var k := ToAsciiUpper(c);
    assert (if k in m then Some(m[k]) else None) == Pattern(k);
  }

  /** A character's run, cut after the first k symbols of its pattern. */
  lemma EncodeCharSplit(m: map<char, string>, c: char, k: nat)
    requires IsTable(m) && ToAsciiUpper(c) in m && k <= |m[ToAsciiUpper(c)]|
    ensures var p := m[ToAsciiUpper(c)];
      EncodeChar(c) == PatternEvents(p[..k]) + (PatternEvents(p[k..]) + [Wait(2)])
  {
    var p := m[ToAsciiUpper(c)];
    EncodeCharFrom(m, c);
    PatternEventsSplit(p, k);
    assert PatternEvents(p[..k]) + (PatternEvents(p[k..]) + [Wait(2)])
      == (PatternEvents(p[..k]) + PatternEvents(p[k..])) + [Wait(2)];
  }

  /** `transmit_text` (main.rs:105-110): the characters of the text, in order. */
  function Encode(text: string): seq<Event> {
    if text == [] then [] else Encode(text[..|text| - 1]) + EncodeChar(text[|text| - 1])
  }

  /** Occurrences of `x` in `p`. */
  function Count(p: string, x: char): nat {
    if p == [] then 0 else Count(p[..|p| - 1], x) + (if p[|p| - 1] == x then 1 else 0)
  }

  /** k pulses seen at the sink's input: On, Off, On, Off, ... */
  function Alternating(k: nat): seq<Event> {
    if k == 0 then [] else Alternating(k - 1) + [On, Off]
  }

  lemma {:induction false} AlternatingShape(k: nat)
    ensures |Alternating(k)| == 2 * k
    ensures forall j | 0 <= j < 2 * k :: Alternating(k)[j] == if j % 2 == 0 then On else Off
  {
    if k > 0 {
      AlternatingShape(k - 1);
    }
  }

  /** Encoding a concatenation is concatenating the encodings. */
  lemma {:induction false} EncodeAppend(s: string, t: string)
    ensures Encode(s + t) == Encode(s) + Encode(t)
  {
    if t == [] {
      assert s + t == s;
    } else {
      var init, last := t[..|t| - 1], t[|t| - 1];
      assert s + t == (s + init) + [last];
      assert (s + t)[..|s + t| - 1] == s + init;
      calc {
        Encode(s + t);
        Encode(s + init) + EncodeChar(last);
        { EncodeAppend(s, init); }
        Encode(s) + Encode(init) + EncodeChar(last);
      }
    }
  }

  lemma {:induction false} PatternEventsAppend(p: string, q: string)
    ensures PatternEvents(p + q) == PatternEvents(p) + PatternEvents(q)
  {
    if q == [] {
      assert p + q == p;
    } else {
      var init, last := q[..|q| - 1], q[|q| - 1];
      assert (p + q)[..|p + q| - 1] == p + init;
      calc {
        PatternEvents(p + q);
        PatternEvents(p + init) + SymbolEvents(last);
        { PatternEventsAppend(p, init); }
        PatternEvents(p) + PatternEvents(init) + SymbolEvents(last);
      }
    }
  }

  /** A character with no pattern adds nothing, wherever it stands in the text. */
  lemma EncodeSkipsUnsupported(s: string, c: char, t: string)
    requires Lookup(c).None?
    ensures Encode(s + [c] + t) == Encode(s + t)
  {
    assert Encode([c]) == [] by {
      assert Encode([c]) == Encode([]) + EncodeChar(c);
    }
    calc {
      Encode(s + [c] + t);
      { EncodeAppend(s + [c], t); }
      Encode(s + [c]) + Encode(t);
      { EncodeAppend(s, [c]); }
      Encode(s) + Encode(t);
      { EncodeAppend(s, t); }
      Encode(s + t);
    }
  }

  /** The empty text produces no events, and so no writes. */
  lemma EncodeEmpty()
    ensures Encode("") == [] && Writes(Encode("")) == 0
  {
  }

  /** Texts that agree up to ASCII case produce the same run. */
  lemma {:induction false} EncodeIgnoresAsciiCase(s: string, t: string)
    requires |s| == |t|
    requires forall i | 0 <= i < |s| :: ToAsciiUpper(s[i]) == ToAsciiUpper(t[i])
    ensures Encode(s) == Encode(t)
  {
    if s != [] {
      EncodeIgnoresAsciiCase(s[..|s| - 1], t[..|t| - 1]);
    }
  }

  /** 'a'..'z' encode as their upper-case letters do; other characters as they are. */
  lemma EncodeCharCase(c: char)
    ensures 'a' <= c <= 'z' ==> EncodeChar(c) == EncodeChar((c as int - 32) as char)
    ensures !('a' <= c <= 'z') ==> Lookup(c) == Pattern(c)
  {
  }

  /** A character produces events exactly when the table has an entry for it after upper-casing. */
  lemma SilentIffUnsupported(c: char)
    ensures EncodeChar(c) == [] <==> Lookup(c).None?
  {
  }

  /** A dot or a dash writes On then Off; a blank writes nothing. */
  lemma SymbolLevels(s: char)
    requires IsSymbol(s)
    ensures Levels(SymbolEvents(s)) == if s == ' ' then [] else [On, Off]
  {
    var es := SymbolEvents(s);
    if s == ' ' {
      assert es[1..] == [];
    } else {
      assert es[1..][1..][1..][1..] == [];
    }
  }

  lemma SymbolTiming(s: char)
    requires IsSymbol(s)
    ensures Writes(SymbolEvents(s)) == if s == ' ' then 0 else 2
    ensures Duration(SymbolEvents(s)) == if s == '.' then 2 else if s == '-' then 4 else 3
    ensures LitTime(SymbolEvents(s), false) == if s == '.' then 1 else if s == '-' then 3 else 0
    ensures !LitAfter(SymbolEvents(s), false)
  {
    var es := SymbolEvents(s);
    if s == ' ' {
      assert es[1..] == [];
    } else {
      assert es[1..][1..][1..][1..] == [];
    }
  }

  /** The writes of a pattern over '.', '-' and ' ': one On/Off pulse per dot or dash. */
  lemma {:induction false} PatternLevels(p: string)
    requires forall i | 0 <= i < |p| :: IsSymbol(p[i])
    ensures Levels(PatternEvents(p)) == Alternating(Count(p, '.') + Count(p, '-'))
  {
    if p != [] {
      var init := p[..|p| - 1];
      assert forall i | 0 <= i < |init| :: init[i] == p[i];
      PatternLevels(init);
      PatternLevelsStep(p);
    }
  }

  /** If the writes of a pattern without its last symbol pulse once per dot or dash, so do the pattern's. */
  lemma PatternLevelsStep(p: string)
    requires p != [] && IsSymbol(p[|p| - 1])
    requires var init := p[..|p| - 1];
      Levels(PatternEvents(init)) == Alternating(Count(init, '.') + Count(init, '-'))
    ensures Levels(PatternEvents(p)) == Alternating(Count(p, '.') + Count(p, '-'))
  {
    var init, s := p[..|p| - 1], p[|p| - 1];
    LastSymbolLevels(p);
    LastSymbolPulses(p);
    var before := Levels(PatternEvents(init));
    if s == ' ' {
      assert before + [] == before;
    } else {
      var k := Count(init, '.') + Count(init, '-');
      assert Alternating(k + 1) == before + [On, Off];
    }
  }

  /** The last symbol of a pattern adds its own writes to those of the rest. */
  lemma LastSymbolLevels(p: string)
    requires p != [] && IsSymbol(p[|p| - 1])
    ensures Levels(PatternEvents(p))
      == Levels(PatternEvents(p[..|p| - 1])) + if p[|p| - 1] == ' ' then [] else [On, Off]
  {
    var init, s := p[..|p| - 1], p[|p| - 1];
    SymbolLevels(s);
    LevelsAppend(PatternEvents(init), SymbolEvents(s));
  }

  /** The last symbol of a pattern is one more pulse unless it is a blank. */
  lemma LastSymbolPulses(p: string)
    requires p != []
    ensures Count(p, '.') + Count(p, '-')
      == Count(p[..|p| - 1], '.') + Count(p[..|p| - 1], '-') + if p[|p| - 1] == '.' || p[|p| - 1] == '-' then 1 else 0
  {
  }

  /**
   * The time of a pattern over '.', '-' and ' ': 2 units per dot, 4 per dash
   * and 3 per blank, lit 1 unit per dot and 3 per dash, and dark at the end.
   */
  lemma {:induction false} PatternTiming(p: string)
    requires forall i | 0 <= i < |p| :: IsSymbol(p[i])
    ensures Duration(PatternEvents(p)) == 2 * Count(p, '.') + 4 * Count(p, '-') + 3 * Count(p, ' ')
    ensures LitTime(PatternEvents(p), false) == Count(p, '.') + 3 * Count(p, '-')
    ensures !LitAfter(PatternEvents(p), false)
  {
    if p != [] {
      var init, s := p[..|p| - 1], p[|p| - 1];
      PatternTiming(init);
      SymbolTiming(s);
      DurationAppend(PatternEvents(init), SymbolEvents(s));
      LitAppend(PatternEvents(init), SymbolEvents(s), false);
    }
  }

  lemma {:induction false} CountDotDash(p: string)
    requires IsDotDash(p)
    ensures Count(p, '.') + Count(p, '-') == |p| && Count(p, ' ') == 0
  {
    if p != [] {
      CountDotDash(p[..|p| - 1]);
    }
  }

  lemma PatternEventsStart(p: string)
    requires 1 <= |p| && IsDotDash(p)
    ensures |PatternEvents(p)| >= 4 && PatternEvents(p)[0] == On
    ensures PatternEvents(p)[|PatternEvents(p)| - 2..] == [Off, Wait(1)]
  {
    if |p| == 1 {
      assert PatternEvents(p) == SymbolEvents(p[0]);
    } else {
      PatternEventsStart(p[..|p| - 1]);
    }
  }

  /**
   * The writes of a letter or figure with pattern p alternate On, Off,
   * starting with On and ending with Off, |p| of each.
   */
  lemma LetterLevels(p: string)
    requires IsDotDash(p)
    ensures var es := PatternEvents(p) + [Wait(2)];
      && |Levels(es)| == 2 * |p|
      && (forall j | 0 <= j < 2 * |p| :: Levels(es)[j] == if j % 2 == 0 then On else Off)
  {
    CountDotDash(p);
    PatternLevels(p);
    AlternatingShape(|p|);
    LevelsAppend(PatternEvents(p), [Wait(2)]);
  }

  /**
   * A letter or figure with pattern p keeps the LED lit 1 unit per dot and 3
   * per dash, and lasts 2 units per dot, 4 per dash, plus the 2-unit letter gap.
   */
  lemma LetterTime(p: string)
    requires IsDotDash(p)
    ensures var es := PatternEvents(p) + [Wait(2)];
      && LitTime(es, false) == Count(p, '.') + 3 * Count(p, '-')
      && Duration(es) == 2 * Count(p, '.') + 4 * Count(p, '-') + 2
  {
    CountDotDash(p);
    PatternTiming(p);
    var body := PatternEvents(p);
    DurationAppend(body, [Wait(2)]);
    LitAppend(body, [Wait(2)], false);
  }

  /** A letter or figure starts by lighting the LED and ends dark for 1 + 2 = 3 units. */
  lemma LetterEnds(p: string)
    requires 1 <= |p| && IsDotDash(p)
    ensures var es := PatternEvents(p) + [Wait(2)];
      es[0] == On && es[|es| - 3..] == [Off, Wait(1), Wait(2)]
  {
    PatternEventsStart(p);
    var body := PatternEvents(p);
    assert (body + [Wait(2)])[|body| + 1 - 3..] == body[|body| - 2..] + [Wait(2)];
  }

  /**
   * Every letter and figure plays its pattern of one to five dots and dashes,
   * then the letter gap, so LetterLevels, LetterTime and LetterEnds apply.
   */
  lemma LetterTiming(c: char)
    requires Lookup(c).Some? && ToAsciiUpper(c) != ' '
    ensures var p := Lookup(c).value;
      1 <= |p| <= 5 && IsDotDash(p) && EncodeChar(c) == PatternEvents(p) + [Wait(2)]
  {
    PatternShape(ToAsciiUpper(c));
  }

  /** The space character: no writes, and 3 + 2 = 5 dark units. */
  lemma SpaceTiming()
    ensures EncodeChar(' ') == [Wait(3), Wait(2)]
    ensures Writes(EncodeChar(' ')) == 0 && Duration(EncodeChar(' ')) == 5
  {
    assert PatternEvents(" ") == [Wait(3)];
  }

  /** The first k + 1 characters of a text encode as the first k, then character k. */
  lemma EncodeStep(text: string, k: nat)
    requires k < |text|
    ensures Encode(text[..k + 1]) == Encode(text[..k]) + EncodeChar(text[k])
  {
    assert text[..k + 1][..k] == text[..k];
  }

  /** A text encodes as its first k characters followed by the rest. */
  lemma EncodeSplit(text: string, k: nat)
    requires k <= |text|
    ensures Encode(text) == Encode(text[..k]) + Encode(text[k..])
  {
    JoinCut(text, k);
    EncodeAppend(text[..k], text[k..]);
  }

  lemma JoinCut<T>(s: seq<T>, k: nat)
    requires k <= |s|
    ensures s[..k] + s[k..] == s
  {
  }

  lemma EncodeSnoc(s: string, c: char)
    ensures Encode(s + [c]) == Encode(s) + EncodeChar(c)
  {
    assert (s + [c])[..|s|] == s;
  }

  lemma LetterSEvents()
    ensures EncodeChar('S') == DotEvents + DotEvents + DotEvents + [Wait(2)]
  {
    assert Lookup('S') == Some("...");
    assert PatternEvents(".") == DotEvents;
    assert PatternEvents("..") == PatternEvents(".") + DotEvents by { assert ".."[..1] == "."; }
    assert PatternEvents("...") == PatternEvents("..") + DotEvents by { assert "..."[..2] == ".."; }
  }

  lemma LetterOEvents()
    ensures EncodeChar('O') == DashEvents + DashEvents + DashEvents + [Wait(2)]
  {
    assert Lookup('O') == Some("---");
    assert PatternEvents("-") == DashEvents;
    assert PatternEvents("--") == PatternEvents("-") + DashEvents by { assert "--"[..1] == "-"; }
    assert PatternEvents("---") == PatternEvents("--") + DashEvents by { assert "---"[..2] == "--"; }
  }

  /** "SOS": three dots, the letter gap, three dashes, the gap, three dots, the gap. */
  lemma SosScenario()
    ensures Encode("SOS") == (DotEvents + DotEvents + DotEvents + [Wait(2)])
                           + (DashEvents + DashEvents + DashEvents + [Wait(2)])
                           + (DotEvents + DotEvents + DotEvents + [Wait(2)])
  {
    var s := DotEvents + DotEvents + DotEvents + [Wait(2)];
    var o := DashEvents + DashEvents + DashEvents + [Wait(2)];
    LetterSEvents();
    LetterOEvents();
    assert "" + ['S'] == "S" && "S" + ['O'] == "SO" && "SO" + ['S'] == "SOS";
    calc {
      Encode("SOS");
      { EncodeSnoc("SO", 'S'); }
      Encode("SO") + s;
      { EncodeSnoc("S", 'O'); }
      Encode("S") + o + s;
      { EncodeSnoc("", 'S'); }
      s + o + s;
    }
  }

  lemma LetterAEvents()
    ensures EncodeChar('A') == DotEvents + DashEvents + [Wait(2)]
  {
    assert Lookup('A') == Some(".-");
    assert PatternEvents(".") == DotEvents;
    assert PatternEvents(".-") == PatternEvents(".") + DashEvents by { assert ".-"[..1] == "."; }
  }

  /** "A" alone: a dot, a dash, and the 2-unit letter gap. */
  lemma LetterAScenario()
    ensures Encode("A") == DotEvents + DashEvents + [Wait(2)]
  {
    LetterAEvents();
    EncodeSnoc("", 'A');
    assert "" + ['A'] == "A";
  }

  lemma LetterEEvents()
    ensures EncodeChar('E') == DotEvents + [Wait(2)]
  {
    assert Lookup('E') == Some(".");
    assert PatternEvents(".") == DotEvents;
  }

  /**
   * "E E": the LED goes dark after the first E and is next lit for the second
   * after 1 + 2 + 3 + 2 = 8 dark units.
   */
  lemma WordGapScenario()
    ensures Encode("E E") == (DotEvents + [Wait(2)]) + [Wait(3), Wait(2)] + (DotEvents + [Wait(2)])
    ensures Encode("E E")[2..8] == [Off, Wait(1), Wait(2), Wait(3), Wait(2), On]
  {
    var e := DotEvents + [Wait(2)];
    LetterEEvents();
    SpaceTiming();
    assert "" + ['E'] == "E" && "E" + [' '] == "E " && "E " + ['E'] == "E E";
    calc {
      Encode("E E");
      { EncodeSnoc("E ", 'E'); }
      Encode("E ") + e;
      { EncodeSnoc("E", ' '); }
      Encode("E") + [Wait(3), Wait(2)] + e;
      { EncodeSnoc("", 'E'); }
      e + [Wait(3), Wait(2)] + e;
    }
  }
}
