# mmuGcodeParser toolchange engine in Dafny

mmuGcodeParser.py post-processes the G-code a slicer writes for a printer
with a multi-material unit, so that the nozzle temperature changes during
a filament tool change are better timed. It makes three passes over the
file's lines.

1. **Scan** (lines 242-313). Each `; toolchange #N` marker opens a
   segment, keyed by its ordinal text N. The segment records the line
   numbers of its sub-positions:
   - the marker itself;
   - the `; CP TOOLCHANGE UNLOAD` pre-unload comment;
   - the first `M104 S<t>` line, whose operand becomes the destination
     temperature;
   - the `T` tool-select lines;
   - the `; CP TOOLCHANGE WIPE` purge comment;
   - the `; CP TOOLCHANGE END` print comment.

   The first `M104` before any marker gives the initial temperature.
2. **Classify** (lines 320-341). The segments are visited in dictionary
   order. Each one is entered at the previous segment's destination (the
   first one at the initial temperature) and classed as one of:
   - `Low2High`;
   - `High2Low`;
   - `NoTrans`, which covers a destination of "0" and an unchanged
     temperature.
3. **Rewrite** (lines 348-385). For every line, the handler of the segment
   that recorded it (lines 102-230) returns a text and an action. The
   line is then written:
   - unchanged (action 0);
   - with an `M104`/`M109` command inserted after it (1) or before it (-1);
   - commented out (-9).

Module by module, the model has these parts:

| module | file | contents |
|---|---|---|
| `Wrappers` | `wrappers.dfy` | `Option`, `Result` |
| `Numerals` | `numerals.dfy` | Python's `int()`/`str()` on the digit runs, and Python's `<` on `str` |
| `Markers` | `markers.dfy` | the six line patterns, as prefix tests with their digit captures |
| `Segments` | `segments.dfy` | the segment record: a map from line numbers to roles, plus the destination temperature |
| `Scanner` | `scanner.dfy` | the scan, as a loop (`Scan`) proved equal to a fold (`ScanSpec`) |
| `ScanFacts` | `scan_facts.dfy` | what the scan records, stated without the fold over the line kinds |
| `Transitions` | `transitions.dfy` | the classification loop, with its fold and what it computes |
| `Handlers` | `handlers.dfy` | the three handlers and their tables |
| `Rewriter` | `rewrite.dfy` | the rewrite loops (`Rewrite`, `PickEdit`, `EmitLine`), their fold and the layout of the written file |
| `Pipeline` | `pipeline.dfy` | the three passes on one file, and what the whole script writes or raises |

The model follows these rules:

- **Temperatures.** They are the `str` captures the script keeps.
  `initTemp` starts as the int 0, modelled as `Temp.IntZero`.
- **Python 3 semantics.** Comparing the int 0 with a `str` (line 327)
  raises TypeError, and so does concatenating it to one (line 184).
  Under Python 2 the comparison would instead class the int below every
  string.
- **Exceptions.** Every exception the script can raise is a
  `Segments.Error`:
  - a missing `destTemp` key (KeyError, lines 135, 140, 190, 195, 324);
  - TypeError (lines 184, 327);
  - `int("")` (ValueError, lines 123, 172, 209).
- **Order.** The dictionary of segments is a map plus the sequence of its
  keys in insertion order, which is Python's iteration order. A repeated
  ordinal replaces that segment's record but keeps its place.
- **Comparison.** The transition test compares `str` values, as the code
  does. `Numerals.LexLess` models this as code-point order. Agreement with
  numeric order is guaranteed only for operands of equal length
  (`Numerals.LexMatchesNumeric`). With different lengths the two orders can
  disagree, as "100" < "95" shows (`Numerals.LexDiffersFromNumeric`).
- **Dead guards.** The guard at line 252 is always true, since a `*`
  search always matches. The guard at line 274 is always true too,
  because `"destTempLine"` is a value of the dictionary, never a key. The
  model keeps the one guard that matters, at line 278.
- **Ramming delta.** `ram_temp_diff` (line 54) is the parameter `d`.

## Model

| member | source | states |
|---|---|---|
| Numerals.IntToStringRoundTrip | mmuGcodeParser.py:123-124 | The text `str(i)` that a handler writes reads back through `int()` as `i`. |
| Numerals.LexTrichotomy | mmuGcodeParser.py:327-336 | Exactly one of `<`, `==` and `>` holds between two strings, so the three branches of the transition test are exclusive and exhaustive. |
| Numerals.LexMatchesNumeric | mmuGcodeParser.py:327-331 | For digit strings of equal length, `str` order and equality coincide with the order and equality of their values. |
| Numerals.LexDiffersFromNumeric | mmuGcodeParser.py:327 | For different lengths the orders part. Take a shorter digit string `a` and a longer one `b` whose first digit is not "0" and is smaller than `a`'s first digit. Then `b` sorts before `a` as a string although `b` is the larger number, as with "100" and "95". |
| Numerals.ParseInt | mmuGcodeParser.py:123 | `int()` fails on the empty text and reads a non-empty digit string as its decimal value. |
| Markers.DigitRun | mmuGcodeParser.py:276-277 | The capture is a prefix of the rest of the line, made only of digits, and it is maximal: the next character, if any, is not a digit. |
| Markers.MarkersDisjoint | mmuGcodeParser.py:70-81 | No line matches two of the six anchored patterns, so the scanner's six tests never fire together. |
| Markers.Classify | mmuGcodeParser.py:249-310 | A line is of each kind exactly when it starts with that kind's prefix. The ordinal and the temperature are the digit runs after `; toolchange #` and `M104 S`. |
| Scanner.Scan | mmuGcodeParser.py:242-313 | The scanning loop computes the fold `ScanSpec`: the dictionary, its order of insertion, the current ordinal and `initTemp`. |
| ScanFacts.ScanCharacterized | mmuGcodeParser.py:246-313 | After all lines, the dictionary, key order, current segment and `initTemp` match the declarative description `ScanFacts` of the line kinds. |
| ScanFacts.ScanOrder | mmuGcodeParser.py:261 | The insertion order lists exactly the dictionary's keys, each once. |
| ScanFacts.ScanRecorded | mmuGcodeParser.py:258-310 | A segment records line n iff n lies between the last marker with its ordinal and the next marker, and n is that marker, the first M104, or a pre-unload, tool-select, purge or end line. The recorded role is the one matching the line's pattern. |
| ScanFacts.ScanRolesDisjoint | mmuGcodeParser.py:258-310 | No line number is recorded by two segments. |
| ScanFacts.ScanPreambleUnrecorded | mmuGcodeParser.py:266-308 | A line before the first marker is recorded by no segment. |
| ScanFacts.ScanLaterTempUnrecorded | mmuGcodeParser.py:274-282 | An M104 line after another M104 of the same segment is recorded by no segment. |
| ScanFacts.ScanDestTemp | mmuGcodeParser.py:274-282 | A segment has no destination iff no M104 follows its last marker before the next marker. Otherwise the destination is the first such M104's operand. |
| ScanFacts.ScanInitTemp | mmuGcodeParser.py:283-289 | `initTemp` stays the int 0 iff no M104 precedes the first marker. Otherwise it is the operand of the first such M104. |
| Transitions.TransitionFor | mmuGcodeParser.py:324-336 | Destination "0" gives NoTrans. The test raises iff the destination is not "0" and the entry is the int 0. Otherwise the result is High2Low, NoTrans or Low2High according to whether the entry is greater than, equal to or less than the destination. |
| Transitions.TransitionNumeric | mmuGcodeParser.py:327-336 | For digit temperatures of equal length whose destination is not "0", the three classes are exactly the numeric drop, equality and rise. |
| Transitions.ClassifyTransitions | mmuGcodeParser.py:320-341 | The classification loop computes the fold `Classification` over the segments in insertion order. |
| Transitions.ClassificationChain | mmuGcodeParser.py:320-341 | When the pass succeeds, every segment is classed and keeps its scan record. The first segment's `currTemp` is `initTemp`, and each later one's is the previous segment's destination. The class is `TransitionFor` of those. |
| Transitions.ClassificationSucceeds | mmuGcodeParser.py:324-327 | The pass succeeds iff every segment has a destination and, when `initTemp` is the int 0, the first segment's destination is "0". |
| Transitions.ClassifyUpToError | mmuGcodeParser.py:324-327 | A failing pass raises the first exception met. When `initTemp` is the int 0 and the first segment has a destination other than "0", that is the first segment's TypeError, even if a later segment lacks a destination. Otherwise it is the KeyError of the first segment without a destination. |
| Transitions.FirstComparedRaises | mmuGcodeParser.py:320-327 | When `initTemp` is the int 0 and the first segment's destination is not "0", the pass ends with that segment's TypeError, whatever the later segments hold. |
| Handlers.TempIntRule | mmuGcodeParser.py:123 | On the values the scan stores, `int(currTemp)` is 0 for the int 0. It raises ValueError exactly on the empty digit run, and reads any other digit run as its decimal value. |
| Handlers.Handle | mmuGcodeParser.py:358-366 | The class selects the handler: `Low2HighHandler` (low2high_handler), `High2LowHandler` (high2low_handler) or `NoneHandler` (none_handler). Whichever it is returns one of the four actions. The pre-unload line gets the ramming rule in every class, and a NoTrans segment keeps every other line. |
| Handlers.RammingDropRule | mmuGcodeParser.py:120-125 | Nothing happens unless `d` > 0. Otherwise an M104 is inserted after the line, with an operand that reads back as the entry temperature minus `d`; or a ValueError is raised when the entry text is not a number. |
| Handlers.HandleFails | mmuGcodeParser.py:102-230 | A handler raises exactly in these cases: the pre-unload line when `d` > 0 and the entry text is not a number; the tool-select (unload) line of a Low2High segment without a destination, or of a High2Low segment entered at the int 0 when `d` > 0; the purge line of a changing segment without a destination; the print line of a High2Low segment without a destination. |
| Handlers.Low2HighTable | mmuGcodeParser.py:127-145 | Low2High: the destination M104 is commented out; `M104 S<dest>` is inserted before the tool-select (unload) line and `M109 S<dest>` after the purge line; the pre-unload line gets the ramming rule; the marker and print lines are kept. |
| Handlers.High2LowTable | mmuGcodeParser.py:176-196 | High2Low: the destination M104 is commented out; the pre-unload line gets the ramming rule; `M104 S<curr>` is inserted before the tool-select (unload) line when `d` > 0; `M104 S<dest>` is inserted after the purge and `M109 S<dest>` before the print line; the marker line is kept. |
| Handlers.NoneTable | mmuGcodeParser.py:202-230 | NoTrans: the pre-unload line gets the ramming rule, and every other role keeps its line. |
| Handlers.RescanSetLine | mmuGcodeParser.py:371 | An inserted `M104 S<t>` line, where `t` is a digit string, is itself read by the scanner's patterns as an M104 of temperature `t`. |
| Handlers.RescanNegativeSetLine | mmuGcodeParser.py:123-124 | A ramming insertion whose operand is negative (an entry temperature below `d`) writes `M104 S-…`. The scanner's patterns read that line as an M104 with the empty temperature. |
| Handlers.RescanWaitLine | mmuGcodeParser.py:371 | An inserted `M109` line matches none of the scanner's patterns. |
| Handlers.RescanCommentedOut | mmuGcodeParser.py:377-378 | A commented-out M104 line matches none of the scanner's patterns. |
| Rewriter.Emit | mmuGcodeParser.py:369-381 | The chunks written for one line under each action: the line itself; the line then the insertion; the insertion then the line; the line with `;` prepended. |
| Rewriter.Rewrite | mmuGcodeParser.py:348-385 | The line loop computes the fold `RewriteSpec` and stops at the first exception. |
| Rewriter.PickEdit | mmuGcodeParser.py:356-366 | The inner loop over the segments computes the line's edit `EditFor`: the last handler called of the segments that recorded the line wins, and the first handler that raises ends it. |
| Rewriter.EmitLine | mmuGcodeParser.py:369-381 | The four `if`s append to the output exactly the chunks `Emit` gives for the line and its edit. |
| Rewriter.RenderUpToFirstError | mmuGcodeParser.py:348-385 | A failed pass over per-line outcomes carries the exception of the first line whose outcome is one, and every earlier line succeeded. |
| Rewriter.EditForOwner | mmuGcodeParser.py:356-366 | A line recorded by exactly one segment gets that segment's handler result. |
| Rewriter.EditForUnowned | mmuGcodeParser.py:352-357 | A line no segment recorded keeps the reset `("", 0)` and is written unchanged. |
| Rewriter.EditUpToValid | mmuGcodeParser.py:352-366 | The action for a line is always one of 0, 1, -1 and -9, so some branch of lines 369-381 writes it. |
| Rewriter.RewriteUpToMeaning | mmuGcodeParser.py:351-385 | The pass succeeds iff no line's handler raises. On success the output is the render of the lines under their edits. On failure the exception is the one of the first line that raises. |
| Rewriter.RenderLength | mmuGcodeParser.py:369-381 | The output has one chunk per line plus one per insertion. |
| Rewriter.RenderAt | mmuGcodeParser.py:369-381 | Line i's chunks sit at its offset in the output, in the order its action prescribes. |
| Pipeline.Process | mmuGcodeParser.py:242-385 | Scan, classification and rewrite in sequence compute `ProcessSpec`: the written chunks, or the exception that ends the script. |
| Pipeline.LineEditOwner | mmuGcodeParser.py:356-366 | Over the whole script, a line recorded by a segment gets that segment's handler with the role the scan gave it, and a line no segment recorded is kept. |
| Pipeline.PreambleKept | mmuGcodeParser.py:266-308 | Every line before the first toolchange marker is written unchanged. |
| Pipeline.LaterTempKept | mmuGcodeParser.py:274-282 | An M104 after the first one of its segment is written unchanged. |
| Pipeline.FirstTempEdit | mmuGcodeParser.py:127-130 | A segment's first M104 is commented out when the segment changes temperature, and kept when it is NoTrans. |
| Pipeline.LineEdits | mmuGcodeParser.py:352-366 | When no handler raises, there is one edit per line, each with a valid action, equal to what the script computes for that line. |
| Pipeline.ProcessOutput | mmuGcodeParser.py:348-385 | A completed run writes every input line once, in order, each as its edit says. |
| Pipeline.ProcessLength | mmuGcodeParser.py:369-381 | A completed run writes one chunk per input line plus one per inserted command. |
| Pipeline.ProcessErrors | mmuGcodeParser.py:320-385 | A run that raises ends in one of three exceptions, apart from the conversion limit admitted under "## Left out": the KeyError of a segment without an M104; the TypeError of comparing the int 0; or the ValueError of `int("")`. The TypeError of line 184 cannot happen. |

## Left out

- Reading `sys.argv`, opening the files and building the output name (lines 56-62, 350): the input is the sequence of lines Python's file iterator yields, and the output is the sequence of chunks passed to `file_write` (lines 97-99).
- The debug summary (lines 388-392): `debug_set` is the constant `False` (line 51), so that code never runs.
- The `re` engine: the six patterns are anchored literal prefixes followed by optional digit runs, and they are modelled as prefix tests with a maximal digit capture.
- The output already written when an exception ends the script: the model returns only the exception.
- `int()` on text other than an optional minus sign and digits, such as whitespace or underscores: the texts handed to `int()` here are digit runs, so apart from the limit below only `""` can fail.
- Numerals.ParseInt: does not model the limit on integer string conversion. CPython 3.11, and the security releases 3.10.7, 3.9.14, 3.8.14 and 3.7.14, have `int()` raise ValueError on a digit run longer than 4300 digits, at lines 123, 172 and 209. `Numerals.ParseInt` reads any digit run.
- Numerals.IntToString: does not model the same limit on `str()`, at line 124. Under those versions `str()` of an int with more than 4300 digits raises ValueError; the model writes every int.
- Python 2 semantics, which order the int 0 below every string: the model follows Python 3.
- `ram_temp_diff` is a constant 10 in the script (line 54): the model takes it as the parameter `d` and states every rule for any `d`.
- Pre-load markers, settings comments, per-segment ramming or purge overrides, and a wait-for-stabilize option: mmuGcodeParser.py has none of these, and the model follows the code.
- A segment with no destination temperature classified as NoTrans: the code raises KeyError at line 324 instead, and the model follows the code (`MissingDestTemp`).
