/**
 * The records the script keeps per tool change (the inner dictionaries of
 * `myToolChanges`) and the errors its three passes can raise.
 */
module Segments {
  import opened Wrappers

  /** The role strings stored under a line number (mmuGcodeParser.py:37-48). */
  datatype Role = IdLine | UnloadStartLine | DestTempLine | UnloadLine | PurgeLine | PrintLine

  /**
   * A temperature as the script holds it: the int 0 that `initTemp` starts
   * as (line 245), or the digit string a regex captured.
   */
  datatype Temp = IntZero | Str(digits: string)

  /**
   * One tool change as the scanner leaves it: its ordinal ("id"), the role
   * of every line number it recorded, and "destTemp" once one was seen.
   */
  datatype Segment = Segment(id: string, roles: map<nat, Role>, destTemp: Option<string>)

  /**
   * The exceptions that abort the script.
   * MissingDestTemp: KeyError on "destTemp" (line 324).
   * IntTempCompared: TypeError comparing the int 0 with a str (line 327).
   * IntTempConcatenated: TypeError on "M104 S" + 0 (line 184).
   * EmptyTempParsed: ValueError from int("") (lines 123, 172, 209).
   */
  datatype Error =
    | MissingDestTemp(id: string)
    | IntTempCompared(id: string)
    | IntTempConcatenated(id: string)
    | EmptyTempParsed(id: string)
}
