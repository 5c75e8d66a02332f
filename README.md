# USB Armory Morse code transmitter: a Dafny model

The program reads lines from standard input and blinks an LED in Morse code.
It drives the LED through a sysfs `brightness` file: writing "1" lights it and
"0" darkens it. All of the logic is in the `MorseCode` object of `main.rs`:

- a fixed table from characters to dot/dash patterns, built by 37 inserts;
- the pulse primitives `led_on`, `led_off`, `dot` and `dash`;
- the loops `transmit_char` and `transmit_text`;
- the quit test in the `main` loop.

This project models that object and proves what it emits.

- `wrappers.dfy` has the `Option` type.
- `morse_table.dfy` (module `MorseTable`) holds the table as the function
  `Pattern` and as the map `Inserted` that the constructor's inserts leave
  behind. It also has ASCII upper-casing, the key set, the pattern shapes,
  injectivity and a decoder (`Decode`) that inverts the table.
- `signals.dfy` (module `Signals`) is what the LED sees.
  - A run is a sequence of `On`, `Off` and `Wait(k)` events. `Wait(k)` is a
    blocking sleep of k units of `unit_delay`, which is 200 ms.
  - Measures over a run: `Writes`, `Duration`, `Levels`, `LitTime`.
  - The fault model. The sink's `writesLeft` is `None` when it never fails.
    It is `Some(n)` when the next n writes succeed and every later write
    fails. A failed write records nothing.
  - Every `?` in the source returns at the first failed write. So what the
    sink records of an intended run is its part before the failing write:
    `Emitted`, `Completes` and `Remaining` give that part, whether the run
    completed, and the writes left over.
- `encoding.dfy` (module `Encoding`) defines the runs that `dot`, `dash`,
  `transmit_char` and `transmit_text` intend, as functions (`DotEvents`,
  `DashEvents`, `EncodeChar`, `Encode`). It proves their timing, their
  case-insensitivity and the concatenation laws, and works out the scenarios
  "SOS", "A" and "E E".
- `transmitter.dfy` (module `Transmitter`) is the class `MorseCode`.
  - Its fields are the LED sink (`trace`, `writesLeft`), the map `morseMap`
    filled by 37 inserts, and `unitDelayMs`.
  - Its methods mirror `led_on`, `led_off`, `dot`, `dash`, `transmit_char`
    and `transmit_text` step by step, loops included.
  - Each method is proved to record exactly what the sink accepts of the
    run given by `Encoding`. It returns `Err` exactly when a write of that
    run is refused.
  - With a sink that never fails, the trace grows by exactly that run.
- `console.dfy` (module `Console`) covers the quit test: Rust's `str::trim`
  (Unicode white space at both ends) and `str::eq_ignore_ascii_case`. Its
  method `HandleLine` is one pass of the `main` loop on a line already read.

Details of the code that the model keeps as they are:

- Characters are upper-cased with `to_ascii_uppercase`, so only `a`–`z`
  change. A non-ASCII lower-case letter is looked up as it is and is
  skipped.
- The space character gets the 2-unit letter gap like every other
  character. Its own pattern is one 3-unit hold, so a space costs 5 dark
  units.
- A word gap therefore comes out at 1 + 2 + 3 + 2 = 8 dark units, not the
  7 units of ITU-R M.1677-1. The model keeps 8: see `WordGapScenario`.
- The quit test compares the trimmed line, not the raw line.

## Model

| member | source | states |
|---|---|---|
| MorseTable.Pattern | main.rs:17-53 | the table as a function: each of the 37 inserted keys gives `Some` of its pattern, any other character `None` |
| MorseTable.ToAsciiUpper | main.rs:91 | `char::to_ascii_uppercase`: 'a'..'z' become 'A'..'Z' (code point minus 32); every other character, non-ASCII included, is unchanged |
| MorseTable.Lookup | main.rs:91 | `morse_map.get(&c.to_ascii_uppercase())`: the table's entry for the upper-cased character |
| MorseTable.Decode | main.rs:17-53 | the key whose pattern is the given one, searched over the 37 keys (an inverse of the table, not in the source) |
| MorseTable.TableKeys | main.rs:17-53 | a character has a pattern exactly when it is a letter A–Z, a digit 0–9 or the space |
| MorseTable.KeysAreDomain | main.rs:17-53 | the 37-character string `Keys` lists exactly the characters that have a pattern |
| MorseTable.KeysSpan | main.rs:17-53 | `Keys` contains exactly the letters, the digits and the space |
| MorseTable.KeyCount | main.rs:17-53 | `Keys` has 37 pairwise distinct characters, so the table has 37 entries |
| MorseTable.InsertedIsTable | main.rs:15-53 | the map left by the 37 inserts holds exactly the table: each inserted key maps to its pattern and no other character is a key |
| MorseTable.InsertedKeys | main.rs:17-53 | every inserted key maps to its pattern |
| MorseTable.InsertedOnly | main.rs:17-53 | a character that is not inserted has no pattern |
| MorseTable.PatternShape | main.rs:17-53 | the space maps to " "; every other pattern is 1 to 5 dots and dashes; every digit's pattern has exactly 5 |
| MorseTable.SymbolsAreKnown | main.rs:93-97 | every symbol of every pattern is '.', '-' or ' ', so the catch-all arm of the symbol match never runs |
| MorseTable.PatternInjective | main.rs:17-53 | two keys with the same pattern are the same key |
| MorseTable.Find | main.rs:17-53 | a result is a listed key with the searched pattern; no result means no listed key has that pattern |
| MorseTable.DecodeInvertsPattern | main.rs:17-53 | `Decode(p)` is `c` exactly when `c`'s pattern is `p`, so every transmitted pattern decodes to its one key |
| MorseTable.LookupIgnoresAsciiCase | main.rs:91 | a lower-case ASCII letter looks up the same pattern as its upper-case letter |
| MorseTable.LookupOtherAsIs | main.rs:91 | a character outside 'a'..'z', non-ASCII included, is looked up unchanged |
| Signals.PrefixCut | main.rs:65-72 | the cut run is a prefix of the run; it is the whole run when there are at most n writes; otherwise it ends just before a write and holds exactly n writes |
| Signals.EmittedAll | main.rs:65-72 | the sink records a prefix of the run, and all of it exactly when it accepts every write |
| Signals.EmittedOnFailure | main.rs:105-110 | after a refused write the sink has recorded a proper prefix of the run that ends just before the refused write and holds as many writes as it had to spare, and nothing more |
| Signals.PrefixAppend | main.rs:105-110 | cutting a + b before its (n+1)-th write cuts inside a, or keeps all of a and cuts b with the writes a left over |
| Signals.Sequence | main.rs:105-110 | offering a + b records a and then b with the writes a left over if a completed, and only a's part otherwise; completion and the writes left compose the same way |
| Signals.Chain | main.rs:74-80 | a step that completed followed by another step records their concatenation, and the two complete exactly when the second does |
| Signals.Abandon | main.rs:74-80 | once a write of a step is refused, appending any further events to the intended run changes nothing that is recorded |
| Signals.Single | main.rs:65-66 | one write is recorded and uses up one write unless the sink has none left, in which case nothing is recorded |
| Signals.Hold | main.rs:76 | a sleep is always recorded and uses up no write |
| Signals.WritesAppend | main.rs:105-110 | the writes of a + b are the writes of a plus those of b |
| Signals.DurationAppend | main.rs:105-110 | the sleeping time of a + b is that of a plus that of b |
| Signals.LevelsAppend | main.rs:105-110 | the levels written by a + b are those of a followed by those of b |
| Signals.LitAppend | main.rs:105-110 | lit time and final LED state compose over a + b |
| Encoding.SymbolEvents | main.rs:93-98 | one symbol's events: `DotEvents` = [On, Wait(1), Off, Wait(1)] for '.' (main.rs:74-80), `DashEvents` = [On, Wait(3), Off, Wait(1)] for '-' (main.rs:82-88), [Wait(3)] for ' ', nothing for any other symbol |
| Encoding.PatternEvents | main.rs:92-99 | the events of a pattern's symbols, one after the other, in order |
| Encoding.EncodeChar | main.rs:90-103 | `transmit_char`'s run: the pattern's events followed by Wait(2) when `Lookup` finds a pattern, nothing otherwise |
| Encoding.Encode | main.rs:105-110 | `transmit_text`'s run: the runs of `EncodeChar` over the text's characters, in order |
| Encoding.EncodeCharFrom | main.rs:90-103 | with any map holding exactly the table, a character's run is its pattern's symbols plus the 2-unit gap if its upper-cased form is a key, and nothing otherwise |
| Encoding.EncodeCharSplit | main.rs:90-103 | a character's run is the first k symbols of its pattern, then the remaining symbols and the 2-unit gap |
| Encoding.PatternEventsStep | main.rs:92-99 | the first k + 1 symbols play the first k symbols and then symbol k |
| Encoding.PatternEventsSplit | main.rs:92-99 | a pattern plays as its first k symbols followed by the rest |
| Encoding.PatternEventsAppend | main.rs:92-99 | playing p + q is playing p, then q |
| Encoding.EncodeAppend | main.rs:105-110 | the run of s + t is the run of s followed by the run of t |
| Encoding.EncodeStep | main.rs:105-110 | the first k + 1 characters encode as the first k, then character k |
| Encoding.EncodeSplit | main.rs:105-110 | a text encodes as its first k characters followed by the rest |
| Encoding.EncodeSnoc | main.rs:105-110 | appending a character appends its run |
| Encoding.EncodeEmpty | main.rs:105-110 | the empty text produces no events and no writes |
| Encoding.EncodeSkipsUnsupported | main.rs:90-103 | a character with no pattern after upper-casing contributes nothing, wherever it stands in the text |
| Encoding.SilentIffUnsupported | main.rs:90-103 | a character produces no events exactly when it has no pattern after upper-casing, so no 2-unit gap is added for it either |
| Encoding.EncodeCharCase | main.rs:91 | 'a'..'z' produce the run of their upper-case letter; any other character is looked up as it is |
| Encoding.EncodeIgnoresAsciiCase | main.rs:91 | two texts that agree up to ASCII case produce the same run |
| Encoding.SymbolLevels | main.rs:74-88 | a dot or a dash writes On then Off; a blank writes nothing |
| Encoding.SymbolTiming | main.rs:74-96 | a dot writes On, Off and lasts 2 units, 1 of them lit; a dash writes On, Off and lasts 4 units, 3 of them lit; a blank writes nothing and lasts 3 units; each ends dark |
| Encoding.AlternatingShape | main.rs:92-98 | k pulses are 2k writes, On at even and Off at odd positions |
| Encoding.PatternLevels | main.rs:92-98 | the writes of a pattern are one On, Off pair per dot or dash, in order |
| Encoding.PatternTiming | main.rs:92-98 | a pattern lasts 2 units per dot, 4 per dash and 3 per blank, is lit 1 unit per dot and 3 per dash, and ends dark |
| Encoding.CountDotDash | main.rs:92-98 | a dot/dash pattern's dots and dashes add up to its length, with no blank |
| Encoding.PatternEventsStart | main.rs:92-98 | a non-empty dot/dash pattern starts with On and ends with Off, Wait(1) |
| Encoding.LetterTiming | main.rs:90-103 | a letter or digit plays its pattern of 1 to 5 dots and dashes and then the 2-unit gap, so LetterLevels, LetterTime and LetterEnds describe its run |
| Encoding.LetterLevels | main.rs:74-103 | the writes of a letter or digit with pattern p alternate On, Off, starting with On and ending with Off, as many of each as p has symbols |
| Encoding.LetterTime | main.rs:74-103 | a letter or digit with pattern p is lit 1 unit per dot and 3 per dash, and lasts 2 units per dot, 4 per dash, plus 2 |
| Encoding.LetterEnds | main.rs:74-103 | the run of a letter or digit starts with On and ends with Off, Wait(1), Wait(2): 3 dark units before the next character |
| Encoding.SpaceTiming | main.rs:96-100 | the space character is [Wait(3), Wait(2)]: no writes and 5 dark units |
| Encoding.LetterSEvents | main.rs:35 | 'S' is three dots and the 2-unit gap |
| Encoding.LetterOEvents | main.rs:31 | 'O' is three dashes and the 2-unit gap |
| Encoding.LetterEEvents | main.rs:21 | 'E' is one dot and the 2-unit gap |
| Encoding.LetterAEvents | main.rs:17 | 'A' is a dot, a dash and the 2-unit gap |
| Encoding.SosScenario | main.rs:105-110 | "SOS" is three dots, gap, three dashes, gap, three dots, gap |
| Encoding.LetterAScenario | main.rs:90-103 | "A" alone is a dot, a dash and the 2-unit gap |
| Encoding.WordGapScenario | main.rs:96-100 | in "E E" the LED stays dark for 1 + 2 + 3 + 2 = 8 units between the two letters |
| Transmitter.FillTable | main.rs:15-53 | the 37 inserts into an empty map build exactly the table |
| Transmitter.MorseCode.constructor | main.rs:14-62 | the map holds exactly the table, the unit is 200 ms, and the LED has received nothing |
| Transmitter.MorseCode.Write | main.rs:65-66 | one write of a level: refused, recording nothing, exactly when no write is left; otherwise recorded, using one write |
| Transmitter.MorseCode.LedOn | main.rs:64-67 | records what the sink accepts of [On]; Err exactly when the write is refused |
| Transmitter.MorseCode.LedOff | main.rs:69-72 | records what the sink accepts of [Off]; Err exactly when the write is refused |
| Transmitter.MorseCode.Sleep | main.rs:76 | appends Wait(k) and leaves the fault schedule as it was |
| Transmitter.MorseCode.Dot | main.rs:74-80 | records what the sink accepts of [On, Wait(1), Off, Wait(1)] and stops at a refused write; Err exactly when one is refused; a sink that never fails gets exactly those four events |
| Transmitter.MorseCode.Dash | main.rs:82-88 | records what the sink accepts of [On, Wait(3), Off, Wait(1)] and stops at a refused write; Err exactly when one is refused; a sink that never fails gets exactly those four events |
| Transmitter.MorseCode.PlaySymbol | main.rs:93-98 | records what the sink accepts of a dot's or a dash's events, or a 3-unit hold for a blank, or nothing for any other symbol; Err exactly when a write is refused |
| Transmitter.MorseCode.TransmitChar | main.rs:90-103 | records what the sink accepts of the character's run (nothing at all for an unsupported character, which returns Ok); Err exactly when a write of the run is refused |
| Transmitter.MorseCode.TransmitText | main.rs:105-110 | records what the sink accepts of the in-order concatenation of the characters' runs; Err exactly when one of its writes is refused, after which nothing more is recorded; a sink that never fails gets the whole concatenation |
| Console.IsWhitespace | main.rs:126 | `char::is_whitespace`: the 25 characters with the Unicode White_Space property |
| Console.TrimStart | main.rs:126 | drops white space from the front, one character at a time |
| Console.TrimEnd | main.rs:126 | drops white space from the back, one character at a time |
| Console.Trim | main.rs:126 | `str::trim`: the front trimmed, then the back |
| Console.ToAsciiLower | main.rs:127 | `char::to_ascii_lowercase`: 'A'..'Z' become 'a'..'z' (code point plus 32); every other character is unchanged |
| Console.EqIgnoreAsciiCase | main.rs:127 | `str::eq_ignore_ascii_case`: same length and the same character at each position after ASCII lower-casing |
| Console.IsQuit | main.rs:126-127 | the trimmed line equals "q" ignoring ASCII case |
| Console.TrimStartKeeps | main.rs:126 | trimming the front keeps a suffix that is empty or starts with a non-white-space character, and drops only white space |
| Console.TrimEndKeeps | main.rs:126 | trimming the back keeps a prefix that is empty or ends with a non-white-space character, and drops only white space |
| Console.TrimShape | main.rs:126 | the trimmed line is the contiguous piece of the line between the white space cut off at both ends, and starts and ends with non-white space |
| Console.QuitIff | main.rs:126-127 | the loop stops exactly when the trimmed line is "q" or "Q" |
| Console.QuitEitherCase | main.rs:127 | "q" and "Q" quit |
| Console.QuitAmidBlanks | main.rs:126-127 | " q" followed by a line break quits |
| Console.EmptyLineGoesOn | main.rs:123-127 | a line holding only its line break does not quit, and neither does the empty line left at the end of input |
| Console.WordGoesOn | main.rs:126-127 | "quit" does not quit |
| Console.HandleLine | main.rs:126-132 | quits, recording nothing, exactly when the quit test holds; otherwise transmits the trimmed line with `TransmitText`'s guarantee |

## Left out

- Opening the sysfs file in `MorseCode::new` (main.rs:55) and its failure are not modelled. The constructor takes the sink's fault schedule instead of a path.
- Byte-level `write_all` and `flush` (main.rs:65-66, 70-71) are collapsed into one write that succeeds or fails. A failed write records nothing, and a failure inside `write_all` or `flush` is not told apart.
- `std::thread::sleep` is not modelled as real time. A sleep is an event `Wait(k)` in units of `unit_delay`, and no clock is read.
- `HashMap` hashing and capacity are not modelled. The map is a Dafny `map`, and only its contents matter.
- Reading standard input and the `println!` notices of `main` (main.rs:116-133) are not modelled. `HandleLine` takes a line already read, without its terminator or with it, since trimming removes it.
- `main`'s loop, the end of input and the process exit status are not modelled. At the end of input, `read_line` returns `Ok(0)` and leaves the buffer, cleared at main.rs:123, empty. The empty line does not quit (`EmptyLineGoesOn`), so the loop as written keeps reading.
- `str::eq_ignore_ascii_case` compares UTF-8 bytes; the model compares characters. The two agree, because ASCII case folding never touches the bytes of a non-ASCII character.
