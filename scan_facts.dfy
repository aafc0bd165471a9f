/**
 * What the scan computes, stated directly over the input rather than as a
 * fold: which segments exist, which line numbers each one owns and with
 * which role, its destination temperature, and the initial temperature.
 * The input is seen through the kinds of its ks: ks[n - 1] is the kind
 * of line n (KindsOf).
 */
module ScanFacts {
  import opened Wrappers
  import opened Markers
  import opened Segments
  import opened Scanner

  function KindsOf(lines: seq<string>): (ks: seq<LineKind>)
    ensures |ks| == |lines|
    ensures forall i :: 0 <= i < |lines| ==> ks[i] == Classify(lines[i])
  {
    seq(|lines|, i requires 0 <= i < |lines| => Classify(lines[i]))
  }

  /** The kind of line n. */
  function KindAt(ks: seq<LineKind>, n: nat): LineKind
    requires 1 <= n <= |ks|
  {
    ks[n - 1]
  }

  predicate IsStartAt(ks: seq<LineKind>, n: nat)
    requires 1 <= n <= |ks|
  {
    KindAt(ks, n).ToolChangeStart?
  }

  /** The most recent toolchange start at or before line n (0: none). */
  function Opener(ks: seq<LineKind>, n: nat): (s: nat)
    requires n <= |ks|
    ensures s <= n
    ensures 0 < s ==> IsStartAt(ks, s)
    ensures forall t :: s < t <= n ==> !IsStartAt(ks, t)
  {
    if n == 0 then 0 else if IsStartAt(ks, n) then n else Opener(ks, n - 1)
  }

  /** The last start marker with ordinal id among lines 1..n (0: none). */
  function LastStartOf(ks: seq<LineKind>, id: string, n: nat): (s: nat)
    requires n <= |ks|
    ensures s <= n
    ensures 0 < s ==> KindAt(ks, s) == ToolChangeStart(id)
    ensures forall t :: s < t <= n ==> KindAt(ks, t) != ToolChangeStart(id)
  {
    if n == 0 then 0
    else if KindAt(ks, n) == ToolChangeStart(id) then n
    else LastStartOf(ks, id, n - 1)
  }

  /** The first start marker with ordinal id among lines 1..n (0: none). */
  function FirstStartOf(ks: seq<LineKind>, id: string, n: nat): (s: nat)
    requires n <= |ks|
    ensures s <= n
    ensures 0 < s ==> KindAt(ks, s) == ToolChangeStart(id)
    ensures forall t :: 0 < t <= n && (s == 0 || t < s) ==> KindAt(ks, t) != ToolChangeStart(id)
  {
    if n == 0 then 0
    else
      var f := FirstStartOf(ks, id, n - 1);
      if f > 0 then f
      else if KindAt(ks, n) == ToolChangeStart(id) then n
      else 0
  }

  predicate Announces(k: LineKind) {
    k.UnloadAnnounce? || k.ToolSelect? || k.PurgeAnnounce? || k.EndAnnounce?
  }

  /** Line n is the first M104 line after the start marker at line s, within the segment s opens. */
  predicate FirstTempOf(ks: seq<LineKind>, s: nat, n: nat)
    requires 1 <= n <= |ks|
  {
    0 < s < n && Opener(ks, n) == s && KindAt(ks, n).TempSet?
    && forall u :: s < u < n ==> !KindAt(ks, u).TempSet?
  }

  /** The segment opened at line s records line n. */
  predicate Owned(ks: seq<LineKind>, s: nat, n: nat)
    requires 1 <= n <= |ks|
  {
    0 < s && Opener(ks, n) == s
    && (n == s || Announces(KindAt(ks, n)) || FirstTempOf(ks, s, n))
  }

  /** No M104 line among ks s+1..k belongs to the segment opened at s. */
  predicate NoTempSince(ks: seq<LineKind>, s: nat, k: nat)
    requires k <= |ks|
  {
    forall u :: s < u <= k && Opener(ks, u) == s ==> !KindAt(ks, u).TempSet?
  }

  /** Every recorded line is one the segment opened at s owns, with the role of its kind. */
  ghost predicate RolesSound(ks: seq<LineKind>, k: nat, roles: map<nat, Role>, s: nat)
    requires k <= |ks|
  {
    forall n :: n in roles ==>
      0 < s <= n <= k && Owned(ks, s, n) && RoleOf(KindAt(ks, n)) == Some(roles[n])
  }

  /** Every line among 1..k that the segment opened at s owns is recorded. */
  ghost predicate RolesComplete(ks: seq<LineKind>, k: nat, roles: map<nat, Role>, s: nat)
    requires k <= |ks|
  {
    forall n :: 0 < s <= n <= k && Owned(ks, s, n) ==> n in roles
  }

  /** destTemp is set exactly when an M104 line was seen, and is the operand of the recorded one. */
  ghost predicate DestTempTracked(ks: seq<LineKind>, k: nat, seg: Segment, s: nat)
    requires k <= |ks|
  {
    && (seg.destTemp.None? <==> NoTempSince(ks, s, k))
    && (forall n :: n in seg.roles && seg.roles[n] == DestTempLine ==>
          1 <= n <= |ks| && KindAt(ks, n).TempSet? && seg.destTemp == Some(KindAt(ks, n).temp))
    && (seg.destTemp.Some? ==> exists n :: n in seg.roles && seg.roles[n] == DestTempLine)
  }

  /** seg is what the segment opened at line s holds after lines 1..k. */
  ghost predicate SegmentMatches(ks: seq<LineKind>, k: nat, seg: Segment, s: nat)
    requires k <= |ks|
  {
    && 0 < s <= k
    && RolesSound(ks, k, seg.roles, s)
    && RolesComplete(ks, k, seg.roles, s)
    && DestTempTracked(ks, k, seg, s)
  }

  /** Line u is the first M104 line of the file and comes before every start marker. */
  predicate FirstPreambleTemp(ks: seq<LineKind>, u: nat)
    requires 1 <= u <= |ks|
  {
    Opener(ks, u) == 0 && KindAt(ks, u).TempSet?
    && forall v :: 0 < v < u ==> !KindAt(ks, v).TempSet?
  }

  ghost predicate InitTempMatches(ks: seq<LineKind>, k: nat, t: Temp)
    requires k <= |ks|
  {
    && (t.IntZero? <==> forall u :: 0 < u <= k && Opener(ks, u) == 0 ==> !KindAt(ks, u).TempSet?)
    && (forall u :: 0 < u <= k && FirstPreambleTemp(ks, u) ==> t == Str(KindAt(ks, u).temp))
    && (t.Str? ==> exists u :: 0 < u <= k && FirstPreambleTemp(ks, u))
  }

  /** The dictionary holds a record for exactly the ordinals some start marker among lines 1..k carries. */
  ghost predicate KeysMatch(ks: seq<LineKind>, k: nat, segments: map<string, Segment>)
    requires k <= |ks|
  {
    forall id :: id in segments <==> LastStartOf(ks, id, k) > 0
  }

  /** The record under each ordinal is the segment opened by the last start marker with that ordinal. */
  ghost predicate SegmentsMatch(ks: seq<LineKind>, k: nat, segments: map<string, Segment>)
    requires k <= |ks|
  {
    forall id :: id in segments ==>
      segments[id].id == id && SegmentMatches(ks, k, segments[id], LastStartOf(ks, id, k))
  }

  /** toolChangeID names the segment opened by the most recent start marker, once there is one. */
  ghost predicate CurrentMatches(ks: seq<LineKind>, k: nat, st: ScanState)
    requires k <= |ks|
  {
    && (st.currentId in st.segments <==> Opener(ks, k) > 0)
    && (Opener(ks, k) > 0 ==> KindAt(ks, Opener(ks, k)) == ToolChangeStart(st.currentId))
  }

  /** The dictionary's key order is the order in which the ordinals first appeared. */
  ghost predicate OrderMatches(ks: seq<LineKind>, k: nat, order: seq<string>, segments: map<string, Segment>)
    requires k <= |ks|
  {
    && (forall id :: id in order <==> id in segments)
    && (forall i, j :: 0 <= i < j < |order| ==>
          FirstStartOf(ks, order[i], k) < FirstStartOf(ks, order[j], k))
  }

  /** Everything the scanner state means after lines 1..k. */
  ghost predicate ScanFacts(ks: seq<LineKind>, k: nat, st: ScanState)
    requires k <= |ks|
  {
    && KeysMatch(ks, k, st.segments)
    && SegmentsMatch(ks, k, st.segments)
    && CurrentMatches(ks, k, st)
    && OrderMatches(ks, k, st.order, st.segments)
    && InitTempMatches(ks, k, st.initTemp)
  }

  /** Inside the segment opened at s every line up to the segment's end has s as its opener. */
  lemma OpenerBetween(ks: seq<LineKind>, s: nat, u: nat, n: nat)
    requires 0 < s <= u <= n <= |ks| && Opener(ks, n) == s
    ensures Opener(ks, u) == s
  {
  }

  /** The current segment is the last one opened with its ordinal. */
  lemma CurrentIsLastStart(ks: seq<LineKind>, k: nat, id: string)
    requires k <= |ks| && Opener(ks, k) > 0 && KindAt(ks, Opener(ks, k)) == ToolChangeStart(id)
    ensures LastStartOf(ks, id, k) == Opener(ks, k)
  {
  }

  /** Recording line k + 1, which the segment owns, with the role of its kind keeps the record sound. */
  lemma SoundAdd(ks: seq<LineKind>, k: nat, roles: map<nat, Role>, s: nat, r: Role)
    requires k < |ks| && 0 < s <= k && RolesSound(ks, k, roles, s)
    requires Owned(ks, s, k + 1) && RoleOf(KindAt(ks, k + 1)) == Some(r)
    ensures RolesSound(ks, k + 1, roles[k + 1 := r], s)
  {
  }

  /** Recording line k + 1 keeps the record complete. */
  lemma CompleteAdd(ks: seq<LineKind>, k: nat, roles: map<nat, Role>, s: nat, r: Role)
    requires k < |ks| && RolesComplete(ks, k, roles, s)
    ensures RolesComplete(ks, k + 1, roles[k + 1 := r], s)
  {
  }

  /** A line k + 1 the segment does not own leaves the record sound and complete. */
  lemma RolesUnowned(ks: seq<LineKind>, k: nat, roles: map<nat, Role>, s: nat)
    requires k < |ks| && RolesSound(ks, k, roles, s) && RolesComplete(ks, k, roles, s)
    requires !Owned(ks, s, k + 1)
    ensures RolesSound(ks, k + 1, roles, s) && RolesComplete(ks, k + 1, roles, s)
  {
  }

  /** A line k + 1 that is no M104 of the segment keeps its destination tracked. */
  lemma DestUnchanged(ks: seq<LineKind>, k: nat, seg: Segment, roles: map<nat, Role>, s: nat)
    requires k < |ks| && DestTempTracked(ks, k, seg, s)
    requires !(KindAt(ks, k + 1).TempSet? && Opener(ks, k + 1) == s)
    requires forall n :: n in seg.roles ==> n in roles && roles[n] == seg.roles[n]
    requires forall n :: n in roles && n !in seg.roles ==> n == k + 1
    requires k + 1 in roles ==> roles[k + 1] != DestTempLine
    ensures DestTempTracked(ks, k + 1, seg.(roles := roles), s)
  {
  }

  /** A segment that line k + 1 does not join keeps its meaning. */
  lemma SegmentExtend(ks: seq<LineKind>, k: nat, seg: Segment, s: nat)
    requires k < |ks| && SegmentMatches(ks, k, seg, s) && Opener(ks, k + 1) != s
    ensures SegmentMatches(ks, k + 1, seg, s)
  {
  }

  /** The current segment, when line k + 1 records nothing in it. */
  lemma SegmentSkip(ks: seq<LineKind>, k: nat, seg: Segment, s: nat)
    requires k < |ks| && SegmentMatches(ks, k, seg, s) && Opener(ks, k + 1) == s
    requires KindAt(ks, k + 1).Other? || (KindAt(ks, k + 1).TempSet? && seg.destTemp.Some?)
    ensures SegmentMatches(ks, k + 1, seg, s)
  {
    if KindAt(ks, k + 1).TempSet? {
      assert !NoTempSince(ks, s, k);
      var u :| s < u <= k && Opener(ks, u) == s && KindAt(ks, u).TempSet?;
      assert !FirstTempOf(ks, s, k + 1);
      RolesUnowned(ks, k, seg.roles, s);
      var n :| n in seg.roles && seg.roles[n] == DestTempLine;
      assert n in seg.roles && seg.roles[n] == DestTempLine;
      assert !NoTempSince(ks, s, k + 1);
    } else {
      RolesUnowned(ks, k, seg.roles, s);
      DestUnchanged(ks, k, seg, seg.roles, s);
      assert seg.(roles := seg.roles) == seg;
    }
  }

  /** The current segment, when line k + 1 is an announcement recorded in it. */
  lemma SegmentAnnounce(ks: seq<LineKind>, k: nat, seg: Segment, s: nat)
    requires k < |ks| && SegmentMatches(ks, k, seg, s) && Opener(ks, k + 1) == s
    requires Announces(KindAt(ks, k + 1))
    ensures SegmentMatches(ks, k + 1, AddRole(seg, k + 1, RoleOf(KindAt(ks, k + 1)).value), s)
  {
    var role := RoleOf(KindAt(ks, k + 1)).value;
    assert Owned(ks, s, k + 1);
    SoundAdd(ks, k, seg.roles, s, role);
    CompleteAdd(ks, k, seg.roles, s, role);
    assert k + 1 !in seg.roles;
    DestUnchanged(ks, k, seg, seg.roles[k + 1 := role], s);
    assert AddRole(seg, k + 1, role) == seg.(roles := seg.roles[k + 1 := role]);
  }

  /** The current segment, when line k + 1 is its first M104 line. */
  lemma SegmentFirstTemp(ks: seq<LineKind>, k: nat, seg: Segment, s: nat)
    requires k < |ks| && SegmentMatches(ks, k, seg, s) && Opener(ks, k + 1) == s
    requires KindAt(ks, k + 1).TempSet? && seg.destTemp.None?
    ensures SegmentMatches(ks, k + 1,
      AddRole(seg, k + 1, DestTempLine).(destTemp := Some(KindAt(ks, k + 1).temp)), s)
  {
    var roles' := seg.roles[k + 1 := DestTempLine];
    var seg' := Segment(seg.id, roles', Some(KindAt(ks, k + 1).temp));
    assert AddRole(seg, k + 1, DestTempLine).(destTemp := Some(KindAt(ks, k + 1).temp)) == seg';
    forall u | s < u < k + 1 ensures !KindAt(ks, u).TempSet? {
      OpenerBetween(ks, s, u, k + 1);
    }
    assert FirstTempOf(ks, s, k + 1);
    SoundAdd(ks, k, seg.roles, s, DestTempLine);
    CompleteAdd(ks, k, seg.roles, s, DestTempLine);
    assert forall n :: n in seg.roles ==> seg.roles[n] != DestTempLine;
    assert !NoTempSince(ks, s, k + 1);
    assert k + 1 in roles' && roles'[k + 1] == DestTempLine;
    assert DestTempTracked(ks, k + 1, seg', s);
  }

  lemma InitTempExtend(ks: seq<LineKind>, k: nat, t: Temp)
    requires k < |ks| && InitTempMatches(ks, k, t) && Opener(ks, k + 1) > 0
    ensures InitTempMatches(ks, k + 1, t)
  {
  }

  lemma InitTempStep(ks: seq<LineKind>, k: nat, t: Temp)
    requires k < |ks| && InitTempMatches(ks, k, t) && Opener(ks, k + 1) == 0
    ensures InitTempMatches(ks, k + 1,
      if KindAt(ks, k + 1).TempSet? && t.IntZero? then Str(KindAt(ks, k + 1).temp) else t)
  {
    var k1 := KindAt(ks, k + 1);
    forall u | 0 < u <= k ensures Opener(ks, u) == 0 {
    }
    if k1.TempSet? && t.IntZero? {
      assert FirstPreambleTemp(ks, k + 1);
    } else if t.Str? {
      var u :| 0 < u <= k && FirstPreambleTemp(ks, u);
      assert !FirstPreambleTemp(ks, k + 1);
    } else {
      assert !FirstPreambleTemp(ks, k + 1);
    }
  }

  /** A segment just opened at line k + 1. */
  lemma SegmentFresh(ks: seq<LineKind>, k: nat, id: string)
    requires k < |ks| && KindAt(ks, k + 1) == ToolChangeStart(id)
    ensures SegmentMatches(ks, k + 1, Segment(id, map[k + 1 := IdLine], None), k + 1)
  {
  }

  /** The state after lines 1..k, seen through the kinds of the lines. */
  function ScanKinds(ks: seq<LineKind>, k: nat): ScanState
    requires k <= |ks|
  {
    if k == 0 then INITIAL else Step(ScanKinds(ks, k - 1), ks[k - 1], k)
  }

  lemma {:induction false} ScanSpecKinds(lines: seq<string>, k: nat)
    requires k <= |lines|
    ensures ScanSpec(lines[..k]) == ScanKinds(KindsOf(lines), k)
  {
    if k > 0 {
      assert lines[..k][..k - 1] == lines[..k - 1];
      ScanSpecKinds(lines, k - 1);
    }
  }

  lemma ScanFactsInitial(ks: seq<LineKind>)
    ensures ScanFacts(ks, 0, INITIAL)
  {
  }

  /** Line k + 1 is not a start marker: no ordinal's last or first start moves. */
  lemma StartsUnmoved(ks: seq<LineKind>, k: nat, id: string)
    requires k < |ks| && !ks[k].ToolChangeStart?
    ensures LastStartOf(ks, id, k + 1) == LastStartOf(ks, id, k)
    ensures FirstStartOf(ks, id, k + 1) == FirstStartOf(ks, id, k)
  {
  }

  lemma StartKeys(ks: seq<LineKind>, k: nat, segments: map<string, Segment>, id0: string)
    requires k < |ks| && ks[k] == ToolChangeStart(id0) && KeysMatch(ks, k, segments)
    ensures KeysMatch(ks, k + 1, segments[id0 := Segment(id0, map[k + 1 := IdLine], None)])
  {
  }

  lemma StartSegments(ks: seq<LineKind>, k: nat, segments: map<string, Segment>, id0: string)
    requires k < |ks| && ks[k] == ToolChangeStart(id0)
    requires KeysMatch(ks, k, segments) && SegmentsMatch(ks, k, segments)
    ensures SegmentsMatch(ks, k + 1, segments[id0 := Segment(id0, map[k + 1 := IdLine], None)])
  {
    var m := k + 1;
    var segments' := segments[id0 := Segment(id0, map[m := IdLine], None)];
    forall id | id in segments'
      ensures segments'[id].id == id && SegmentMatches(ks, m, segments'[id], LastStartOf(ks, id, m))
    {
      if id == id0 {
        SegmentFresh(ks, k, id0);
      } else {
        StartLeavesOther(ks, k, segments[id], id0, id);
      }
    }
  }

  /** A start marker with another ordinal leaves a recorded segment as it was. */
  lemma StartLeavesOther(ks: seq<LineKind>, k: nat, seg: Segment, id0: string, id: string)
    requires k < |ks| && ks[k] == ToolChangeStart(id0) && id != id0
    requires SegmentMatches(ks, k, seg, LastStartOf(ks, id, k))
    ensures SegmentMatches(ks, k + 1, seg, LastStartOf(ks, id, k + 1))
  {
    assert LastStartOf(ks, id, k + 1) == LastStartOf(ks, id, k);
    assert Opener(ks, k + 1) == k + 1;
    SegmentExtend(ks, k, seg, LastStartOf(ks, id, k));
  }

  lemma StartOrder(ks: seq<LineKind>, k: nat, order: seq<string>, segments: map<string, Segment>, id0: string)
    requires k < |ks| && ks[k] == ToolChangeStart(id0)
    requires KeysMatch(ks, k, segments) && OrderMatches(ks, k, order, segments)
    ensures OrderMatches(ks, k + 1, if id0 in segments then order else order + [id0],
      segments[id0 := Segment(id0, map[k + 1 := IdLine], None)])
  {
  }

  /** Line k + 1 opens a segment. */
  lemma StepStart(ks: seq<LineKind>, k: nat, m: nat, st: ScanState)
    requires k < |ks| && m == k + 1 && ScanFacts(ks, k, st) && ks[k].ToolChangeStart?
    ensures ScanFacts(ks, m, Step(st, ks[k], m))
  {
    var id0 := ks[k].id;
    StartKeys(ks, k, st.segments, id0);
    StartSegments(ks, k, st.segments, id0);
    StartOrder(ks, k, st.order, st.segments, id0);
    assert Opener(ks, k + 1) == k + 1;
    InitTempExtend(ks, k, st.initTemp);
  }

  /** Line k + 1 is not a start and no segment is open yet. */
  lemma StepPreamble(ks: seq<LineKind>, k: nat, m: nat, st: ScanState)
    requires k < |ks| && m == k + 1 && ScanFacts(ks, k, st) && !ks[k].ToolChangeStart? && st.currentId !in st.segments
    ensures ScanFacts(ks, m, Step(st, ks[k], m))
  {
    assert Opener(ks, m) == 0;
    forall id ensures LastStartOf(ks, id, m) == LastStartOf(ks, id, k) == 0 {
    }
    assert st.segments == map[];
    forall id ensures FirstStartOf(ks, id, m) == FirstStartOf(ks, id, k) {
    }
    InitTempStep(ks, k, st.initTemp);
  }

  /** What a line of the given kind, numbered n, does to the record of the open segment. */
  function Record(seg: Segment, kind: LineKind, n: nat): (seg': Segment)
    ensures seg'.id == seg.id
    ensures seg'.roles.Keys <= seg.roles.Keys + {n}
  {
    if kind.TempSet? then
      if seg.destTemp.None? then AddRole(seg, n, DestTempLine).(destTemp := Some(kind.temp)) else seg
    else
      match RoleOf(kind)
      case Some(role) => AddRole(seg, n, role)
      case None => seg
  }

  /** Inside a segment, a step only rewrites the open segment's record. */
  lemma StepInSegmentShape(st: ScanState, kind: LineKind, n: nat)
    requires !kind.ToolChangeStart? && st.currentId in st.segments
    ensures Step(st, kind, n)
      == st.(segments := st.segments[st.currentId := Record(st.segments[st.currentId], kind, n)])
  {
  }

  /** The open segment's record after line k + 1 (not a start) lands in it. */
  lemma RecordMatches(ks: seq<LineKind>, k: nat, seg: Segment, s: nat)
    requires k < |ks| && !ks[k].ToolChangeStart? && SegmentMatches(ks, k, seg, s) && Opener(ks, k + 1) == s
    ensures SegmentMatches(ks, k + 1, Record(seg, ks[k], k + 1), s)
  {
    var kind := ks[k];
    if kind.TempSet? && seg.destTemp.None? {
      SegmentFirstTemp(ks, k, seg, s);
    } else if Announces(kind) {
      SegmentAnnounce(ks, k, seg, s);
    } else {
      SegmentSkip(ks, k, seg, s);
    }
  }

  /** Every segment other than the open one keeps its meaning across line k + 1. */
  lemma InSegmentOthers(ks: seq<LineKind>, k: nat, segments: map<string, Segment>, cur: string)
    requires k < |ks| && !ks[k].ToolChangeStart? && cur in segments
    requires KeysMatch(ks, k, segments) && SegmentsMatch(ks, k, segments)
    requires Opener(ks, k) > 0 && KindAt(ks, Opener(ks, k)) == ToolChangeStart(cur)
    ensures forall id :: id in segments && id != cur ==>
      segments[id].id == id && SegmentMatches(ks, k + 1, segments[id], LastStartOf(ks, id, k + 1))
  {
    var m := k + 1;
    assert Opener(ks, m) == Opener(ks, k);
    forall id | id in segments && id != cur
      ensures segments[id].id == id && SegmentMatches(ks, m, segments[id], LastStartOf(ks, id, m))
    {
      StartsUnmoved(ks, k, id);
      var s := LastStartOf(ks, id, k);
      SegmentExtend(ks, k, segments[id], s);
    }
  }

  /** Replacing one record by one that matches keeps the whole dictionary matching. */
  lemma SegmentsMatchUpdate(ks: seq<LineKind>, m: nat, segments: map<string, Segment>, cur: string, seg': Segment)
    requires m <= |ks| && cur in segments
    requires seg'.id == cur && SegmentMatches(ks, m, seg', LastStartOf(ks, cur, m))
    requires forall id :: id in segments && id != cur ==>
      segments[id].id == id && SegmentMatches(ks, m, segments[id], LastStartOf(ks, id, m))
    ensures SegmentsMatch(ks, m, segments[cur := seg'])
  {
  }

  lemma InSegmentSegments(ks: seq<LineKind>, k: nat, segments: map<string, Segment>, cur: string)
    requires k < |ks| && !ks[k].ToolChangeStart? && cur in segments
    requires KeysMatch(ks, k, segments) && SegmentsMatch(ks, k, segments)
    requires Opener(ks, k) > 0 && KindAt(ks, Opener(ks, k)) == ToolChangeStart(cur)
    ensures SegmentsMatch(ks, k + 1, segments[cur := Record(segments[cur], ks[k], k + 1)])
  {
    var s := Opener(ks, k);
    assert Opener(ks, k + 1) == s;
    CurrentIsLastStart(ks, k, cur);
    StartsUnmoved(ks, k, cur);
    RecordMatches(ks, k, segments[cur], s);
    InSegmentOthers(ks, k, segments, cur);
    SegmentsMatchUpdate(ks, k + 1, segments, cur, Record(segments[cur], ks[k], k + 1));
  }

  lemma InSegmentKeysMatch(ks: seq<LineKind>, k: nat, segments: map<string, Segment>, cur: string, seg': Segment)
    requires k < |ks| && !ks[k].ToolChangeStart? && cur in segments
    requires KeysMatch(ks, k, segments)
    ensures KeysMatch(ks, k + 1, segments[cur := seg'])
  {
  }

  lemma InSegmentOrder(ks: seq<LineKind>, k: nat, order: seq<string>, segments: map<string, Segment>,
                       cur: string, seg': Segment)
    requires k < |ks| && !ks[k].ToolChangeStart? && cur in segments
    requires OrderMatches(ks, k, order, segments)
    ensures OrderMatches(ks, k + 1, order, segments[cur := seg'])
  {
  }

  /** Line k + 1 is not a start and lands in the open segment. */
  lemma StepInSegment(ks: seq<LineKind>, k: nat, m: nat, st: ScanState)
    requires k < |ks| && m == k + 1 && ScanFacts(ks, k, st) && !ks[k].ToolChangeStart? && st.currentId in st.segments
    ensures ScanFacts(ks, m, Step(st, ks[k], m))
  {
    var cur := st.currentId;
    var seg' := Record(st.segments[cur], ks[k], k + 1);
    StepInSegmentShape(st, ks[k], k + 1);
    InSegmentKeysMatch(ks, k, st.segments, cur, seg');
    InSegmentSegments(ks, k, st.segments, cur);
    InSegmentOrder(ks, k, st.order, st.segments, cur, seg');
    assert Opener(ks, k + 1) == Opener(ks, k);
    InitTempExtend(ks, k, st.initTemp);
  }

  lemma ScanFactsStep(ks: seq<LineKind>, k: nat, m: nat, st: ScanState, next: ScanState)
    requires k < |ks| && m == k + 1 && ScanFacts(ks, k, st) && next == Step(st, ks[k], m)
    ensures ScanFacts(ks, m, next)
  {
    if ks[k].ToolChangeStart? {
      StepStart(ks, k, m, st);
    } else if st.currentId !in st.segments {
      StepPreamble(ks, k, m, st);
    } else {
      StepInSegment(ks, k, m, st);
    }
  }

  /** The state after every prefix of the kinds meets ScanFacts. */
  lemma {:induction false} ScanKindsFacts(ks: seq<LineKind>, k: nat, st: ScanState)
    requires k <= |ks| && st == ScanKinds(ks, k)
    ensures ScanFacts(ks, k, st)
  {
    if k == 0 {
      ScanFactsInitial(ks);
    } else {
      var prev := ScanKinds(ks, k - 1);
      ScanKindsFacts(ks, k - 1, prev);
      ScanFactsStep(ks, k - 1, k, prev, st);
    }
  }

  /** The scan of a whole file means what ScanFacts says. */
  lemma ScanCharacterized(lines: seq<string>)
    ensures ScanFacts(KindsOf(lines), |lines|, ScanSpec(lines))
  {
    ScanSpecKinds(lines, |lines|);
    assert lines[..|lines|] == lines;
    ScanKindsFacts(KindsOf(lines), |lines|, ScanSpec(lines));
  }

  /** The key order lists every ordinal of the dictionary, each once. */
  lemma ScanOrder(lines: seq<string>)
    ensures forall id :: id in ScanSpec(lines).order <==> id in ScanSpec(lines).segments
    ensures forall i, j :: 0 <= i < j < |ScanSpec(lines).order| ==> ScanSpec(lines).order[i] != ScanSpec(lines).order[j]
  {
  }

  /** The record of an ordinal after the whole file is the segment its last start marker opened. */
  lemma ScanSegment(lines: seq<string>, id: string)
    requires id in ScanSpec(lines).segments
    ensures ScanSpec(lines).segments[id].id == id
    ensures SegmentMatches(KindsOf(lines), |lines|, ScanSpec(lines).segments[id],
      LastStartOf(KindsOf(lines), id, |lines|))
  {
    ScanCharacterized(lines);
    assert SegmentsMatch(KindsOf(lines), |lines|, ScanSpec(lines).segments);
  }

  /**
   * A line number is recorded in the segment of an ordinal exactly when the
   * last start marker with that ordinal opened the segment the line is in and
   * the line is that marker, an announcement, or the segment's first M104;
   * its role is the one its kind names.
   */
  lemma ScanRecorded(lines: seq<string>, id: string, n: nat)
    requires id in ScanSpec(lines).segments
    ensures var ks := KindsOf(lines);
      n in ScanSpec(lines).segments[id].roles <==>
        1 <= n <= |lines| && Owned(ks, LastStartOf(ks, id, |lines|), n)
    ensures n in ScanSpec(lines).segments[id].roles ==>
      RoleOf(Classify(lines[n - 1])) == Some(ScanSpec(lines).segments[id].roles[n])
  {
    var ks := KindsOf(lines);
    var seg := ScanSpec(lines).segments[id];
    var s := LastStartOf(ks, id, |lines|);
    ScanSegment(lines, id);
    assert RolesSound(ks, |lines|, seg.roles, s);
    assert RolesComplete(ks, |lines|, seg.roles, s);
  }

  /** No line number is recorded in two segments. */
  lemma ScanRolesDisjoint(lines: seq<string>, id1: string, id2: string, n: nat)
    requires id1 in ScanSpec(lines).segments && id2 in ScanSpec(lines).segments
    requires n in ScanSpec(lines).segments[id1].roles && n in ScanSpec(lines).segments[id2].roles
    ensures id1 == id2
  {
    var ks := KindsOf(lines);
    ScanRecorded(lines, id1, n);
    ScanRecorded(lines, id2, n);
    var s1 := LastStartOf(ks, id1, |lines|);
    var s2 := LastStartOf(ks, id2, |lines|);
    assert s1 == Opener(ks, n) == s2;
    assert KindAt(ks, s1) == ToolChangeStart(id1);
  }

  /** A line before the first start marker is recorded in no segment. */
  lemma ScanPreambleUnrecorded(lines: seq<string>, n: nat)
    requires 1 <= n <= |lines| && Opener(KindsOf(lines), n) == 0
    ensures forall id :: id in ScanSpec(lines).segments ==> n !in ScanSpec(lines).segments[id].roles
  {
    forall id | id in ScanSpec(lines).segments ensures n !in ScanSpec(lines).segments[id].roles {
      ScanRecorded(lines, id, n);
    }
  }

  /** An M104 line after another one in the same segment is recorded nowhere. */
  lemma ScanLaterTempUnrecorded(lines: seq<string>, u: nat, n: nat)
    requires 1 <= u < n <= |lines|
    requires Opener(KindsOf(lines), n) < u
    requires Classify(lines[u - 1]).TempSet? && Classify(lines[n - 1]).TempSet?
    ensures forall id :: id in ScanSpec(lines).segments ==> n !in ScanSpec(lines).segments[id].roles
  {
    var ks := KindsOf(lines);
    assert KindAt(ks, u).TempSet? && KindAt(ks, n).TempSet?;
    assert !FirstTempOf(ks, Opener(ks, n), n);
    forall id | id in ScanSpec(lines).segments ensures n !in ScanSpec(lines).segments[id].roles {
      ScanRecorded(lines, id, n);
    }
  }

  /**
   * Each segment's destination temperature is the operand of its first M104
   * line, and is absent exactly when the segment has none.
   */
  lemma ScanDestTemp(lines: seq<string>, id: string)
    requires id in ScanSpec(lines).segments
    ensures var ks := KindsOf(lines); var s := LastStartOf(ks, id, |lines|);
      && (ScanSpec(lines).segments[id].destTemp.None? <==> NoTempSince(ks, s, |lines|))
      && forall n :: 1 <= n <= |lines| && FirstTempOf(ks, s, n) ==>
        ScanSpec(lines).segments[id].destTemp == Some(Classify(lines[n - 1]).temp)
  {
    var ks := KindsOf(lines);
    var seg := ScanSpec(lines).segments[id];
    var s := LastStartOf(ks, id, |lines|);
    ScanSegment(lines, id);
    assert DestTempTracked(ks, |lines|, seg, s);
    forall n | 1 <= n <= |lines| && FirstTempOf(ks, s, n) ensures seg.destTemp == Some(Classify(lines[n - 1]).temp) {
      assert Owned(ks, s, n);
      assert RolesComplete(ks, |lines|, seg.roles, s);
      assert RolesSound(ks, |lines|, seg.roles, s);
      assert RoleOf(KindAt(ks, n)) == Some(seg.roles[n]);
    }
  }

  /**
   * initTemp is the operand of the first M104 line before any start marker,
   * and stays the int 0 when there is none.
   */
  lemma ScanInitTemp(lines: seq<string>)
    ensures var ks := KindsOf(lines);
      && (ScanSpec(lines).initTemp.IntZero? <==>
            forall u :: 0 < u <= |lines| && Opener(ks, u) == 0 ==> !KindAt(ks, u).TempSet?)
      && forall u :: 0 < u <= |lines| && FirstPreambleTemp(ks, u) ==>
            ScanSpec(lines).initTemp == Str(Classify(lines[u - 1]).temp)
  {
    ScanCharacterized(lines);
  }
}
