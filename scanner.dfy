/**
 * The first pass (mmuGcodeParser.py:242-313): one walk over the lines,
 * numbered from 1, building the dictionary of tool changes.
 */
module Scanner {
  import opened Wrappers
  import opened Markers
  import opened Segments

  /**
   * The scanner's variables: `myToolChanges` as a map plus the order its
   * keys were first inserted in (a Python dict keeps that order, also when
   * a key is assigned again), `toolChangeID` and `initTemp`.
   */
  datatype ScanState = ScanState(
    segments: map<string, Segment>,
    order: seq<string>,
    currentId: string,
    initTemp: Temp)

  /** Before the first line; `toolChangeID` is never read before a segment exists, so "" stands for its int 0. */
  const INITIAL: ScanState := ScanState(map[], [], "", IntZero)

  /** The role a line of the given kind gets in the segment it lands in. */
  function RoleOf(k: LineKind): Option<Role> {
    match k
    case ToolChangeStart(_) => Some(IdLine)
    case UnloadAnnounce => Some(UnloadStartLine)
    case TempSet(_) => Some(DestTempLine)
    case ToolSelect => Some(UnloadLine)
    case PurgeAnnounce => Some(PurgeLine)
    case EndAnnounce => Some(PrintLine)
    case Other => None
  }

  function AddRole(seg: Segment, n: nat, role: Role): Segment {
    seg.(roles := seg.roles[n := role])
  }

  /**
   * What a line of kind k, numbered n, does to the scanner state: one
   * lookup of the line's single pattern.
   */
  function Step(st: ScanState, k: LineKind, n: nat): ScanState {
    if k.ToolChangeStart? then
      ScanState(
        st.segments[k.id := Segment(k.id, map[n := IdLine], None)],
        if k.id in st.segments then st.order else st.order + [k.id],
        k.id,
        st.initTemp)
    else if st.currentId !in st.segments then
      if k.TempSet? && st.initTemp.IntZero? then st.(initTemp := Str(k.temp)) else st
    else
      var seg := st.segments[st.currentId];
      if k.TempSet? then
        if seg.destTemp.None? then
          st.(segments := st.segments[st.currentId := AddRole(seg, n, DestTempLine).(destTemp := Some(k.temp))])
        else st
      else
        match RoleOf(k)
        case Some(role) => st.(segments := st.segments[st.currentId := AddRole(seg, n, role)])
        case None => st
  }

  /** The state after lines 1..|lines|. */
  function ScanSpec(lines: seq<string>): ScanState
    decreases |lines|
  {
    if lines == [] then INITIAL
    else Step(ScanSpec(lines[..|lines| - 1]), Classify(lines[|lines| - 1]), |lines|)
  }

  /** The scan loop of lines 246-313, the six pattern tests in the source's order. */
  method Scan(lines: seq<string>) returns (st: ScanState)
    ensures st == ScanSpec(lines)
  {
    var toolChanges: map<string, Segment> := map[];
    var order: seq<string> := [];
    var toolChangeId := "";
    var initTemp := IntZero;
    var lineNumber := 1;
    while lineNumber <= |lines|
      invariant 1 <= lineNumber <= |lines| + 1
      invariant ScanState(toolChanges, order, toolChangeId, initTemp) == ScanSpec(lines[..lineNumber - 1])
      invariant |toolChanges| > 0 <==> toolChangeId in toolChanges
    {
      var line := lines[lineNumber - 1];
      MarkersDisjoint(line);
      ghost var before := ScanState(toolChanges, order, toolChangeId, initTemp);
      assert lines[..lineNumber][..lineNumber - 1] == lines[..lineNumber - 1];

      if StartsWith(line, TOOLCHANGE_START) {
        // the `[0-9]*\Z` search of line 251 always matches, so 252 never fails
        var switchId := DigitRun(line[|TOOLCHANGE_START|..]);
        if switchId !in toolChanges {
          order := order + [switchId];
        }
        toolChanges := toolChanges[switchId := Segment(switchId, map[lineNumber := IdLine], None)];
        toolChangeId := switchId;
      }

      if StartsWith(line, UNLOAD_ANNOUNCE) && |toolChanges| > 0 {
        toolChanges := toolChanges[toolChangeId := AddRole(toolChanges[toolChangeId], lineNumber, UnloadStartLine)];
      }

      if StartsWith(line, TEMP_SET) {
        var temp := DigitRun(line[|TEMP_SET|..]);
        if |toolChanges| > 0 {
          // line 274 asks for the key "destTempLine", which is only ever a value: always true
          var seg := toolChanges[toolChangeId];
          if seg.destTemp.None? {
            toolChanges := toolChanges[toolChangeId := AddRole(seg, lineNumber, DestTempLine).(destTemp := Some(temp))];
          }
        } else if initTemp == IntZero {
          initTemp := Str(temp);
        }
      }

      if StartsWith(line, TOOL_SELECT) && |toolChanges| > 0 {
        toolChanges := toolChanges[toolChangeId := AddRole(toolChanges[toolChangeId], lineNumber, UnloadLine)];
      }

      if StartsWith(line, PURGE_ANNOUNCE) && |toolChanges| > 0 {
        toolChanges := toolChanges[toolChangeId := AddRole(toolChanges[toolChangeId], lineNumber, PurgeLine)];
      }

      if StartsWith(line, END_ANNOUNCE) && |toolChanges| > 0 {
        toolChanges := toolChanges[toolChangeId := AddRole(toolChanges[toolChangeId], lineNumber, PrintLine)];
      }

      assert ScanState(toolChanges, order, toolChangeId, initTemp) == Step(before, Classify(line), lineNumber);
      lineNumber := lineNumber + 1;
    }
    assert lines[..|lines|] == lines;
    st := ScanState(toolChanges, order, toolChangeId, initTemp);
  }
}
