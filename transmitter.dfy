/**
 * The `MorseCode` encoder object (main.rs:7-111): its table, its LED sink and
 * the operations that drive the sink step by step.
 *
 * The sink is the pair of fields `trace` (every event the LED has received)
 * and `writesLeft` (its fault schedule, see module Signals). Each operation is
 * proved to record exactly what the sink accepts of the run the Encoding
 * module gives for it, and to return `Err` exactly when a write of that run is
 * refused; after a refused write nothing more is recorded.
 */
module Transmitter {
  import opened Wrappers
  import opened MorseTable
  import opened Signals
  import opened Encoding

  /** `io::Result<()>`; the one error modelled is a refused write to the LED. */
  datatype IoResult = Ok | Err

  /** The 37 inserts of `MorseCode::new` (main.rs:15-53) into an empty map. */
  method FillTable() returns (m: map<char, string>)
    ensures IsTable(m)
  {
    m := map[];
    m := m['A' := ".-"];
    m := m['B' := "-..."];
    m := m['C' := "-.-."];
    m := m['D' := "-.."];
    m := m['E' := "."];
    m := m['F' := "..-."];
    m := m['G' := "--."];
    m := m['H' := "...."];
    m := m['I' := ".."];
    m := m['J' := ".---"];
    m := m['K' := "-.-"];
    m := m['L' := ".-.."];
    m := m['M' := "--"];
    m := m['N' := "-."];
    m := m['O' := "---"];
    m := m['P' := ".--."];
    m := m['Q' := "--.-"];
    m := m['R' := ".-."];
    m := m['S' := "..."];
    m := m['T' := "-"];
    m := m['U' := "..-"];
    m := m['V' := "...-"];
    m := m['W' := ".--"];
    m := m['X' := "-..-"];
    m := m['Y' := "-.--"];
    m := m['Z' := "--.."];
    m := m['1' := ".----"];
    m := m['2' := "..---"];
    m := m['3' := "...--"];
    m := m['4' := "....-"];
    m := m['5' := "....."];
    m := m['6' := "-...."];
    m := m['7' := "--..."];
    m := m['8' := "---.."];
    m := m['9' := "----."];
    m := m['0' := "-----"];
    m := m[' ' := " "];
    assert m == Inserted;
    InsertedIsTable();
  }

  class MorseCode {
    /** Everything the LED has received so far. */
    var trace: seq<Event>
    /** None: the LED never fails; Some(n): the next n writes succeed, every later one fails. */
    var writesLeft: Option<nat>
    /** `morse_map` (main.rs:9). */
    const morseMap: map<char, string>
    /** `unit_delay`, in milliseconds (main.rs:10, 60); `Wait(k)` lasts k of these. */
    const unitDelayMs: nat

    /** The map holds exactly the table's entries and the delay is 200 ms. */
    ghost predicate Valid() {
      IsTable(morseMap) && unitDelayMs == UnitDelayMs
    }

    /**
     * Since a run was started from `trace0` with `left0` writes to spare, the
     * sink has recorded what it accepts of `es`, and `r` is Ok exactly when
     * it accepted every write.
     */
    ghost predicate Did(es: seq<Event>, trace0: seq<Event>, left0: Option<nat>, r: IoResult)
      reads this
    {
      && Recorded(trace, writesLeft, trace0, left0, es)
      && (r == Ok <==> Completes(es, left0))
    }

    /**
     * `MorseCode::new` (main.rs:14-62): fills the table with 37 inserts. The
     * sink starts with an empty trace and the given fault schedule.
     */
    constructor (faults: Option<nat>)
      ensures Valid() && trace == [] && writesLeft == faults
    {
      var m := FillTable();
      morseMap := m;
      unitDelayMs := 200;
      trace := [];
      writesLeft := faults;
    }

    /** `write_all` then `flush` of one level: refused when no write is left. */
    method Write(level: Event) returns (r: IoResult)
      requires level.IsWrite()
      modifies this
      ensures Did([level], old(trace), old(writesLeft), r)
      ensures r == Err <==> old(writesLeft) == Some(0)
    {
      Single(level, writesLeft);
      if writesLeft == Some(0) {
        r := Err;
      } else {
        trace := trace + [level];
        writesLeft := if writesLeft.None? then None else Some(writesLeft.value - 1);
        r := Ok;
      }
    }

    /** `led_on` (main.rs:64-67). */
    method LedOn() returns (r: IoResult)
      modifies this
      ensures Did([On], old(trace), old(writesLeft), r)
    {
      r := Write(On);
    }

    /** `led_off` (main.rs:69-72). */
    method LedOff() returns (r: IoResult)
      modifies this
      ensures Did([Off], old(trace), old(writesLeft), r)
    {
      r := Write(Off);
    }

    /** `sleep(unit_delay * units)`: a hold, which never fails. */
    method Sleep(units: nat)
      modifies this
      ensures trace == old(trace) + [Wait(units)] && writesLeft == old(writesLeft)
    {
      trace := trace + [Wait(units)];
    }

    /** `dot` (main.rs:74-80): lit for 1 unit, dark for 1 unit. */
    method Dot() returns (r: IoResult)
      modifies this
      ensures Did(DotEvents, old(trace), old(writesLeft), r)
      ensures old(writesLeft).None? ==> trace == old(trace) + DotEvents && r == Ok
    {
      ghost var t0, l0 := trace, writesLeft;
      r := LedOn();
      if r == Err {
        Abandon(t0, l0, [On], [Wait(1), Off, Wait(1)], trace, writesLeft);
        assert [On] + [Wait(1), Off, Wait(1)] == [On, Wait(1), Off, Wait(1)];
        return;
      }
      ghost var t1, l1 := trace, writesLeft;
      Sleep(1);
      Hold(1, l1);
      Chain(t0, l0, [On], t1, l1, [Wait(1)], trace, writesLeft);
      assert [On] + [Wait(1)] == [On, Wait(1)];
      ghost var t2, l2 := trace, writesLeft;
      r := LedOff();
      Chain(t0, l0, [On, Wait(1)], t2, l2, [Off], trace, writesLeft);
      assert [On, Wait(1)] + [Off] == [On, Wait(1), Off];
      if r == Err {
        Abandon(t0, l0, [On, Wait(1), Off], [Wait(1)], trace, writesLeft);
        assert [On, Wait(1), Off] + [Wait(1)] == [On, Wait(1), Off, Wait(1)];
        return;
      }
      ghost var t3, l3 := trace, writesLeft;
      Sleep(1);
      Hold(1, l3);
      Chain(t0, l0, [On, Wait(1), Off], t3, l3, [Wait(1)], trace, writesLeft);
      assert [On, Wait(1), Off] + [Wait(1)] == [On, Wait(1), Off, Wait(1)];
    }

    /** `dash` (main.rs:82-88): lit for 3 units, dark for 1 unit. */
    method Dash() returns (r: IoResult)
      modifies this
      ensures Did(DashEvents, old(trace), old(writesLeft), r)
      ensures old(writesLeft).None? ==> trace == old(trace) + DashEvents && r == Ok
    {
      ghost var t0, l0 := trace, writesLeft;
      r := LedOn();
      if r == Err {
        Abandon(t0, l0, [On], [Wait(3), Off, Wait(1)], trace, writesLeft);
        assert [On] + [Wait(3), Off, Wait(1)] == [On, Wait(3), Off, Wait(1)];
        return;
      }
      ghost var t1, l1 := trace, writesLeft;
      Sleep(3);
      Hold(3, l1);
      Chain(t0, l0, [On], t1, l1, [Wait(3)], trace, writesLeft);
      assert [On] + [Wait(3)] == [On, Wait(3)];
      ghost var t2, l2 := trace, writesLeft;
      r := LedOff();
      Chain(t0, l0, [On, Wait(3)], t2, l2, [Off], trace, writesLeft);
      assert [On, Wait(3)] + [Off] == [On, Wait(3), Off];
      if r == Err {
        Abandon(t0, l0, [On, Wait(3), Off], [Wait(1)], trace, writesLeft);
        assert [On, Wait(3), Off] + [Wait(1)] == [On, Wait(3), Off, Wait(1)];
        return;
      }
      ghost var t3, l3 := trace, writesLeft;
      Sleep(1);
      Hold(1, l3);
      Chain(t0, l0, [On, Wait(3), Off], t3, l3, [Wait(1)], trace, writesLeft);
      assert [On, Wait(3), Off] + [Wait(1)] == [On, Wait(3), Off, Wait(1)];
    }

    /**
     * The symbol match inside `transmit_char` (main.rs:93-98): a dot, a dash,
     * a 3-unit hold for a blank, and nothing for any other symbol.
     */
    method PlaySymbol(symbol: char) returns (r: IoResult)
      modifies this
      ensures Did(SymbolEvents(symbol), old(trace), old(writesLeft), r)
    {
      match symbol {
        case '.' => r := Dot();
        case '-' => r := Dash();
        case ' ' =>
          Sleep(3);
          Hold(3, old(writesLeft));
          r := Ok;
        case _ =>
          r := Ok;
          assert trace == old(trace) + [];
      }
    }

    /**
     * `transmit_char` (main.rs:90-103): look the upper-cased character up;
     * if it has a pattern, play its symbols and hold 2 units; otherwise do
     * nothing and succeed.
     */
    method TransmitChar(c: char) returns (r: IoResult)
      requires Valid()
      modifies this
      ensures Did(EncodeChar(c), old(trace), old(writesLeft), r)
    {
      ghost var t0, l0 := trace, writesLeft;
      var key := ToAsciiUpper(c);
      if key in morseMap {
        var pattern := morseMap[key];
        for i := 0 to |pattern|
          invariant Did(PatternEvents(pattern[..i]), t0, l0, Ok)
        {
          ghost var done := PatternEvents(pattern[..i]);
          ghost var t1, l1 := trace, writesLeft;
          var symbol := pattern[i];
          PatternEventsStep(pattern, i);
          r := PlaySymbol(symbol);
          Chain(t0, l0, done, t1, l1, SymbolEvents(symbol), trace, writesLeft);
          if r == Err {
            Abandon(t0, l0, PatternEvents(pattern[..i + 1]), PatternEvents(pattern[i + 1..]) + [Wait(2)], trace, writesLeft);
            EncodeCharSplit(morseMap, c, i + 1);
            return;
          }
        }
        assert pattern[..|pattern|] == pattern;
        ghost var t1, l1 := trace, writesLeft;
        Sleep(2);
        Hold(2, l1);
        Chain(t0, l0, PatternEvents(pattern), t1, l1, [Wait(2)], trace, writesLeft);
      } else {
        assert trace == t0 + [];
      }
      EncodeCharFrom(morseMap, c);
      r := Ok;
    }

    /**
     * `transmit_text` (main.rs:105-110): transmit each character in order,
     * stopping at the first error and returning it.
     */
    method TransmitText(text: string) returns (r: IoResult)
      requires Valid()
      modifies this
      ensures Did(Encode(text), old(trace), old(writesLeft), r)
      ensures old(writesLeft).None? ==> trace == old(trace) + Encode(text) && r == Ok
    {
      ghost var t0, l0 := trace, writesLeft;
      for i := 0 to |text|
        invariant Did(Encode(text[..i]), t0, l0, Ok)
      {
        ghost var done := Encode(text[..i]);
        ghost var t1, l1 := trace, writesLeft;
        EncodeStep(text, i);
        r := TransmitChar(text[i]);
        Chain(t0, l0, done, t1, l1, EncodeChar(text[i]), trace, writesLeft);
        if r == Err {
          EncodeSplit(text, i + 1);
          Abandon(t0, l0, Encode(text[..i + 1]), Encode(text[i + 1..]), trace, writesLeft);
          return;
        }
      }
      assert text[..|text|] == text;
      r := Ok;
    }
  }
}
