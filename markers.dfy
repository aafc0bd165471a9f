/**
 * The line patterns of mmuGcodeParser.py (lines 70-81). Every pattern is
 * anchored at the start of the line, so each is a prefix test; the two
 * captures (the toolchange ordinal and the M104 operand) are the run of
 * decimal digits that follows the prefix.
 */
module Markers {
  import opened Numerals

  const TOOLCHANGE_START := "; toolchange #"
  const UNLOAD_ANNOUNCE := "; CP TOOLCHANGE UNLOAD"
  const TEMP_SET := "M104 S"
  /** `^T[0-9]?` matches every line that starts with T, digit or not. */
  const TOOL_SELECT := "T"
  const PURGE_ANNOUNCE := "; CP TOOLCHANGE WIPE"
  const END_ANNOUNCE := "; CP TOOLCHANGE END"

  predicate StartsWith(line: string, prefix: string) {
    |prefix| <= |line| && line[..|prefix|] == prefix
  }

  /** The longest prefix of s made of decimal digits: what `[0-9]*` matches there. */
  function DigitRun(s: string): (r: string)
    ensures |r| <= |s| && r == s[..|r|]
    ensures IsDigits(r)
    ensures |r| < |s| ==> !IsDigit(s[|r|])
  {
    if s != [] && IsDigit(s[0]) then [s[0]] + DigitRun(s[1..]) else []
  }

  /** What one line of G-code is, as far as the scanner can tell. */
  datatype LineKind =
    | ToolChangeStart(id: string)   // "; toolchange #<id>"
    | UnloadAnnounce                 // "; CP TOOLCHANGE UNLOAD"
    | TempSet(temp: string)          // "M104 S<temp>"
    | ToolSelect                     // "T..."
    | PurgeAnnounce                  // "; CP TOOLCHANGE WIPE"
    | EndAnnounce                    // "; CP TOOLCHANGE END"
    | Other

  lemma PrefixesClash(line: string, p: string, q: string, i: nat)
    requires i < |p| && i < |q| && p[i] != q[i]
    ensures !(StartsWith(line, p) && StartsWith(line, q))
  {
  }

  /** No line matches two of the six patterns. */
  lemma MarkersDisjoint(line: string)
    ensures !(StartsWith(line, TOOLCHANGE_START) && StartsWith(line, UNLOAD_ANNOUNCE))
    ensures !(StartsWith(line, TOOLCHANGE_START) && StartsWith(line, TEMP_SET))
    ensures !(StartsWith(line, TOOLCHANGE_START) && StartsWith(line, TOOL_SELECT))
    ensures !(StartsWith(line, TOOLCHANGE_START) && StartsWith(line, PURGE_ANNOUNCE))
    ensures !(StartsWith(line, TOOLCHANGE_START) && StartsWith(line, END_ANNOUNCE))
    ensures !(StartsWith(line, UNLOAD_ANNOUNCE) && StartsWith(line, TEMP_SET))
    ensures !(StartsWith(line, UNLOAD_ANNOUNCE) && StartsWith(line, TOOL_SELECT))
    ensures !(StartsWith(line, UNLOAD_ANNOUNCE) && StartsWith(line, PURGE_ANNOUNCE))
    ensures !(StartsWith(line, UNLOAD_ANNOUNCE) && StartsWith(line, END_ANNOUNCE))
    ensures !(StartsWith(line, TEMP_SET) && StartsWith(line, TOOL_SELECT))
    ensures !(StartsWith(line, TEMP_SET) && StartsWith(line, PURGE_ANNOUNCE))
    ensures !(StartsWith(line, TEMP_SET) && StartsWith(line, END_ANNOUNCE))
    ensures !(StartsWith(line, TOOL_SELECT) && StartsWith(line, PURGE_ANNOUNCE))
    ensures !(StartsWith(line, TOOL_SELECT) && StartsWith(line, END_ANNOUNCE))
    ensures !(StartsWith(line, PURGE_ANNOUNCE) && StartsWith(line, END_ANNOUNCE))
  {
    PrefixesClash(line, TOOLCHANGE_START, UNLOAD_ANNOUNCE, 2);
    PrefixesClash(line, TOOLCHANGE_START, TEMP_SET, 0);
    PrefixesClash(line, TOOLCHANGE_START, TOOL_SELECT, 0);
    PrefixesClash(line, TOOLCHANGE_START, PURGE_ANNOUNCE, 2);
    PrefixesClash(line, TOOLCHANGE_START, END_ANNOUNCE, 2);
    PrefixesClash(line, UNLOAD_ANNOUNCE, TEMP_SET, 0);
    PrefixesClash(line, UNLOAD_ANNOUNCE, TOOL_SELECT, 0);
    PrefixesClash(line, UNLOAD_ANNOUNCE, PURGE_ANNOUNCE, 16);
    PrefixesClash(line, UNLOAD_ANNOUNCE, END_ANNOUNCE, 16);
    PrefixesClash(line, TEMP_SET, TOOL_SELECT, 0);
    PrefixesClash(line, TEMP_SET, PURGE_ANNOUNCE, 0);
    PrefixesClash(line, TEMP_SET, END_ANNOUNCE, 0);
    PrefixesClash(line, TOOL_SELECT, PURGE_ANNOUNCE, 0);
    PrefixesClash(line, TOOL_SELECT, END_ANNOUNCE, 0);
    PrefixesClash(line, PURGE_ANNOUNCE, END_ANNOUNCE, 16);
  }

  /**
   * The single pattern a line matches, with its capture. The toolchange
   * ordinal is the digit run after "#" (the `[0-9]*\Z` search of line 251
   * on the match of line 249); the temperature is the digit run after
   * "M104 S" (the `S[0-9]*` search of lines 276 and 287 finds the S of that
   * prefix, since "M104 " holds no S).
   */
  function Classify(line: string): (k: LineKind)
    ensures k.ToolChangeStart? <==> StartsWith(line, TOOLCHANGE_START)
    ensures k == UnloadAnnounce <==> StartsWith(line, UNLOAD_ANNOUNCE)
    ensures k.TempSet? <==> StartsWith(line, TEMP_SET)
    ensures k == ToolSelect <==> StartsWith(line, TOOL_SELECT)
    ensures k == PurgeAnnounce <==> StartsWith(line, PURGE_ANNOUNCE)
    ensures k == EndAnnounce <==> StartsWith(line, END_ANNOUNCE)
    ensures k.ToolChangeStart? ==> k.id == DigitRun(line[|TOOLCHANGE_START|..])
    ensures k.TempSet? ==> k.temp == DigitRun(line[|TEMP_SET|..])
  {
    MarkersDisjoint(line);
    if StartsWith(line, TOOLCHANGE_START) then ToolChangeStart(DigitRun(line[|TOOLCHANGE_START|..]))
    else if StartsWith(line, UNLOAD_ANNOUNCE) then UnloadAnnounce
    else if StartsWith(line, TEMP_SET) then TempSet(DigitRun(line[|TEMP_SET|..]))
    else if StartsWith(line, TOOL_SELECT) then ToolSelect
    else if StartsWith(line, PURGE_ANNOUNCE) then PurgeAnnounce
    else if StartsWith(line, END_ANNOUNCE) then EndAnnounce
    else Other
  }
}
