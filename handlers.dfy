/**
 * The three handlers of mmuGcodeParser.py:102-230. Each looks at the role
 * its segment recorded for one line number and answers with a text and an
 * action: 0 keeps the line, 1 inserts the text after it, -1 before it, and
 * -9 comments the line out. `ram_temp_diff` (line 54) is the parameter d.
 */
module Handlers {
  import opened Wrappers
  import opened Numerals
  import opened Markers
  import opened Segments
  import opened Transitions

  const VERSION := "v0.1"
  /** Appended to every inserted command (line 36). */
  const MYGCODEMARK := " ; MMUGCODEPARSER " + VERSION
  /** The command that waits for a temperature. */
  const TEMP_WAIT := "M109 S"

  /** The pair (lv_output, lv_insert) a handler returns. */
  datatype Edit = Edit(output: string, action: int)

  const KEEP := Edit("", 0)

  predicate ValidAction(a: int) {
    a == 0 || a == 1 || a == -1 || a == -9
  }

  /** The chunk an insertion writes. */
  function InsertedLine(e: Edit): string {
    e.output + MYGCODEMARK + "\n"
  }

  /** int(p_tool_change[CURR_TEMP]): the int 0 passes through, a str goes through int(). */
  function TempInt(id: string, t: Temp): (r: Result<int, Error>)
    ensures t.IntZero? ==> r == Success(0)
    ensures t.Str? ==> (r.Success? <==> ParseInt(t.digits).Some?)
    ensures t.Str? && r.Success? ==> Some(r.value) == ParseInt(t.digits)
    ensures r.Failure? ==> r.error == EmptyTempParsed(id)
  {
    match t
    case IntZero => Success(0)
    case Str(s) =>
      match ParseInt(s)
      case Some(v) => Success(v)
      case None => Failure(EmptyTempParsed(id))
  }

  /**
   * What int(p_tool_change[CURR_TEMP]) does on the values the scan can
   * store: the int 0 stays 0, the str "" raises ValueError, and any other
   * digit run is read as its decimal value.
   */
  lemma TempIntRule(id: string, t: Temp)
    requires t.Str? ==> IsDigits(t.digits)
    ensures t.IntZero? ==> TempInt(id, t) == Success(0)
    ensures t.Str? ==> (TempInt(id, t).Failure? <==> t.digits == "")
    ensures t.Str? && t.digits != "" ==> TempInt(id, t) == Success(DigitsValue(t.digits))
    ensures TempInt(id, t).Failure? ==> TempInt(id, t).error == EmptyTempParsed(id)
  {
  }

  /** "M104 S" + p_tool_change[CURR_TEMP]: concatenating the int 0 to a str raises. */
  function TempText(id: string, t: Temp): (r: Result<string, Error>)
    ensures r.Failure? <==> t.IntZero?
    ensures r.Success? ==> r.value == t.digits
    ensures r.Failure? ==> r.error == IntTempConcatenated(id)
  {
    match t
    case IntZero => Failure(IntTempConcatenated(id))
    case Str(s) => Success(s)
  }

  /** p_tool_change[DEST_TEMP]: a KeyError when the segment never saw an M104 line. */
  function DestText(c: Classified): (r: Result<string, Error>)
    ensures r.Failure? <==> c.seg.destTemp.None?
    ensures r.Success? ==> c.seg.destTemp == Some(r.value)
    ensures r.Failure? ==> r.error == MissingDestTemp(c.seg.id)
  {
    match c.seg.destTemp
    case Some(dest) => Success(dest)
    case None => Failure(MissingDestTemp(c.seg.id))
  }

  /** The rule every handler applies to the pre-unload line (lines 120-125, 169-174, 206-211). */
  function RammingDrop(c: Classified, d: int): Result<Edit, Error> {
    if d > 0 then
      match TempInt(c.seg.id, c.currTemp)
      case Failure(e) => Failure(e)
      case Success(v) => Success(Edit(TEMP_SET + IntToString(v - d), 1))
    else Success(KEEP)
  }

  function WithPrefix(prefix: string, r: Result<string, Error>, action: int): Result<Edit, Error> {
    match r
    case Failure(e) => Failure(e)
    case Success(t) => Success(Edit(prefix + t, action))
  }

  /** low2high_handler (lines 102-148). */
  function Low2HighHandler(c: Classified, n: nat, d: int): Result<Edit, Error>
    requires n in c.seg.roles
  {
    match c.seg.roles[n]
    case UnloadStartLine => RammingDrop(c, d)
    case DestTempLine => Success(Edit("", -9))
    case UnloadLine => WithPrefix(TEMP_SET, DestText(c), -1)
    case PurgeLine => WithPrefix(TEMP_WAIT, DestText(c), 1)
    case PrintLine => Success(KEEP)
    case IdLine => Success(KEEP)
  }

  /** high2low_handler (lines 151-199). */
  function High2LowHandler(c: Classified, n: nat, d: int): Result<Edit, Error>
    requires n in c.seg.roles
  {
    match c.seg.roles[n]
    case UnloadStartLine => RammingDrop(c, d)
    case DestTempLine => Success(Edit("", -9))
    case UnloadLine => if d > 0 then WithPrefix(TEMP_SET, TempText(c.seg.id, c.currTemp), -1) else Success(KEEP)
    case PurgeLine => WithPrefix(TEMP_SET, DestText(c), 1)
    case PrintLine => WithPrefix(TEMP_WAIT, DestText(c), -1)
    case IdLine => Success(KEEP)
  }

  /** none_handler (lines 202-230). */
  function NoneHandler(c: Classified, n: nat, d: int): Result<Edit, Error>
    requires n in c.seg.roles
  {
    match c.seg.roles[n]
    case UnloadStartLine => RammingDrop(c, d)
    case _ => Success(KEEP)
  }

  /** The handler the segment's class selects (lines 358-366). */
  function Handle(c: Classified, n: nat, d: int): (r: Result<Edit, Error>)
    requires n in c.seg.roles
    ensures r.Success? ==> ValidAction(r.value.action)
    ensures c.seg.roles[n] == UnloadStartLine ==> r == RammingDrop(c, d)
    ensures c.transition == NoTrans && c.seg.roles[n] != UnloadStartLine ==> r == Success(KEEP)
  {
    match c.transition
    case Low2High => Low2HighHandler(c, n, d)
    case High2Low => High2LowHandler(c, n, d)
    case NoTrans => NoneHandler(c, n, d)
  }

  /** The first M104 line of a segment is commented out when the segment changes temperature, else kept. */
  lemma HandleDestTemp(c: Classified, n: nat, d: int)
    requires n in c.seg.roles && c.seg.roles[n] == DestTempLine
    ensures c.transition == NoTrans ==> Handle(c, n, d) == Success(KEEP)
    ensures c.transition != NoTrans ==> Handle(c, n, d) == Success(Edit("", -9))
  {
  }

  /**
   * The pre-unload rule: nothing unless d > 0; otherwise an M104 inserted
   * after the line whose operand reads back as the entry temperature less d,
   * or a ValueError when the entry temperature is not a number.
   */
  lemma RammingDropRule(c: Classified, d: int)
    ensures d <= 0 ==> RammingDrop(c, d) == Success(KEEP)
    ensures d > 0 && c.currTemp.Str? && ParseInt(c.currTemp.digits).None? ==>
      RammingDrop(c, d) == Failure(EmptyTempParsed(c.seg.id))
    ensures d > 0 && RammingDrop(c, d).Success? ==>
      var e := RammingDrop(c, d).value;
      && e.action == 1
      && StartsWith(e.output, TEMP_SET)
      && ParseInt(e.output[|TEMP_SET|..]) == Some(TempInt(c.seg.id, c.currTemp).value - d)
  {
    if d > 0 && RammingDrop(c, d).Success? {
      var v := TempInt(c.seg.id, c.currTemp).value;
      var e := RammingDrop(c, d).value;
      assert e.output[|TEMP_SET|..] == IntToString(v - d);
      IntToStringRoundTrip(v - d);
    }
  }

  /**
   * When a handler raises, and which exception: the four lookups that can
   * fail, each in the class whose handler performs it.
   */
  lemma HandleFails(c: Classified, n: nat, d: int)
    requires n in c.seg.roles
    ensures Handle(c, n, d).Failure? <==>
      match c.seg.roles[n]
      case UnloadStartLine => d > 0 && c.currTemp.Str? && ParseInt(c.currTemp.digits).None?
      case UnloadLine =>
        || (c.transition == Low2High && c.seg.destTemp.None?)
        || (c.transition == High2Low && d > 0 && c.currTemp.IntZero?)
      case PurgeLine => c.transition != NoTrans && c.seg.destTemp.None?
      case PrintLine => c.transition == High2Low && c.seg.destTemp.None?
      case _ => false
  {
  }

  /** A digit run ends where the digits end. */
  lemma {:induction false} DigitRunOf(t: string, rest: string)
    requires IsDigits(t) && (rest == [] || !IsDigit(rest[0]))
    ensures DigitRun(t + rest) == t
    decreases |t|
  {
    if t != [] {
      assert (t + rest)[1..] == t[1..] + rest;
      DigitRunOf(t[1..], rest);
    }
  }

  /** An inserted M104 with a digit operand is read by the scanner as an M104 of that temperature. */
  lemma RescanSetLine(t: string)
    requires IsDigits(t)
    ensures Classify(InsertedLine(Edit(TEMP_SET + t, 1))) == TempSet(t)
  {
    var line := InsertedLine(Edit(TEMP_SET + t, 1));
    assert line == TEMP_SET + (t + (MYGCODEMARK + "\n"));
    assert line[|TEMP_SET|..] == t + (MYGCODEMARK + "\n");
    DigitRunOf(t, MYGCODEMARK + "\n");
  }

  /**
   * A ramming insertion whose operand went negative (an entry temperature
   * below d) writes "M104 S-...", which the scanner reads as an M104 with an
   * empty temperature.
   */
  lemma RescanNegativeSetLine(v: int)
    requires v < 0
    ensures Classify(InsertedLine(Edit(TEMP_SET + IntToString(v), 1))) == TempSet("")
  {
  }

  lemma NotStarting(line: string, p: string, i: nat)
    requires i < |p| && i < |line| && line[i] != p[i]
    ensures !StartsWith(line, p)
  {
  }

  /** An inserted M109 matches none of the scanner's patterns. */
  lemma RescanWaitLine(t: string)
    ensures Classify(InsertedLine(Edit(TEMP_WAIT + t, 1))) == Other
  {
    var line := InsertedLine(Edit(TEMP_WAIT + t, 1));
    assert line[0] == 'M' && line[3] == '9';
    NotStarting(line, TOOLCHANGE_START, 0);
    NotStarting(line, UNLOAD_ANNOUNCE, 0);
    NotStarting(line, TEMP_SET, 3);
    NotStarting(line, TOOL_SELECT, 0);
    NotStarting(line, PURGE_ANNOUNCE, 0);
    NotStarting(line, END_ANNOUNCE, 0);
  }

  /** An M104 line commented out matches none of the scanner's patterns. */
  lemma RescanCommentedOut(line: string)
    requires StartsWith(line, TEMP_SET)
    ensures Classify(";" + line) == Other
  {
    var commented := ";" + line;
    assert commented[0] == ';' && commented[1] == 'M';
    NotStarting(commented, TOOLCHANGE_START, 1);
    NotStarting(commented, UNLOAD_ANNOUNCE, 1);
    NotStarting(commented, TEMP_SET, 0);
    NotStarting(commented, TOOL_SELECT, 0);
    NotStarting(commented, PURGE_ANNOUNCE, 1);
    NotStarting(commented, END_ANNOUNCE, 1);
  }

  /**
   * The Low2High column: the destination M104 is commented out, the
   * destination temperature set before the unload and waited for after the
   * purge; the print line is untouched.
   */
  lemma Low2HighTable(c: Classified, n: nat, d: int)
    requires n in c.seg.roles && c.transition == Low2High && c.seg.destTemp.Some?
    requires IsDigits(c.seg.destTemp.value)
    ensures var r := Handle(c, n, d); var dest := c.seg.destTemp.value;
      match c.seg.roles[n]
      case DestTempLine => r.Success? && r.value.action == -9
      case UnloadLine =>
        r == Success(Edit(TEMP_SET + dest, -1)) && Classify(InsertedLine(r.value)) == TempSet(dest)
      case PurgeLine =>
        r == Success(Edit(TEMP_WAIT + dest, 1)) && Classify(InsertedLine(r.value)) == Other
      case PrintLine => r == Success(KEEP)
      case IdLine => r == Success(KEEP)
      case UnloadStartLine => r == RammingDrop(c, d)
  {
    var dest := c.seg.destTemp.value;
    RescanSetLine(dest);
    RescanWaitLine(dest);
  }

  /**
   * The High2Low column: the destination M104 is commented out, the entry
   * temperature restored before the unload when d > 0, the destination set
   * after the purge and waited for before printing.
   */
  lemma High2LowTable(c: Classified, n: nat, d: int)
    requires n in c.seg.roles && c.transition == High2Low && c.seg.destTemp.Some? && c.currTemp.Str?
    requires IsDigits(c.seg.destTemp.value) && IsDigits(c.currTemp.digits)
    ensures var r := Handle(c, n, d); var dest := c.seg.destTemp.value; var curr := c.currTemp.digits;
      match c.seg.roles[n]
      case DestTempLine => r.Success? && r.value.action == -9
      case UnloadLine =>
        if d > 0 then r == Success(Edit(TEMP_SET + curr, -1)) && Classify(InsertedLine(r.value)) == TempSet(curr)
        else r == Success(KEEP)
      case PurgeLine =>
        r == Success(Edit(TEMP_SET + dest, 1)) && Classify(InsertedLine(r.value)) == TempSet(dest)
      case PrintLine =>
        r == Success(Edit(TEMP_WAIT + dest, -1)) && Classify(InsertedLine(r.value)) == Other
      case IdLine => r == Success(KEEP)
      case UnloadStartLine => r == RammingDrop(c, d)
  {
    RescanSetLine(c.seg.destTemp.value);
    RescanSetLine(c.currTemp.digits);
    RescanWaitLine(c.seg.destTemp.value);
  }
  /** NoTrans (none_handler): only the pre-unload line may change, by the ramming rule; every other line is kept. */
  lemma NoneTable(c: Classified, n: nat, d: int)
    requires n in c.seg.roles && c.transition == NoTrans
    ensures var r := Handle(c, n, d);
      match c.seg.roles[n]
      case UnloadStartLine => r == RammingDrop(c, d)
      case DestTempLine => r == Success(KEEP)
      case UnloadLine => r == Success(KEEP)
      case PurgeLine => r == Success(KEEP)
      case PrintLine => r == Success(KEEP)
      case IdLine => r == Success(KEEP)
  {
  }

}
