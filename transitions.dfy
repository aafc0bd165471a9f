/**
 * The second pass (mmuGcodeParser.py:320-341): the segments are visited in
 * the order the dictionary keeps them, a running `lastTemp` starting at
 * `initTemp`; each segment gets its class and the temperature it is entered
 * with.
 */
module Transitions {
  import opened Wrappers
  import opened Numerals
  import opened Segments

  /** LOW2HIGH, HIGH2LOW and NOTRANSITION. */
  datatype Transition = Low2High | High2Low | NoTrans

  /** A segment after the second pass: its scan record plus "currTemp" and "transition". */
  datatype Classified = Classified(seg: Segment, currTemp: Temp, transition: Transition)

  /**
   * The class of a segment with destination `dest` entered at `lastTemp`.
   * "0" is compared first; otherwise `lastTemp > dest` and `lastTemp == dest`
   * compare str values, and the int 0 cannot be ordered against a str.
   */
  function TransitionFor(id: string, lastTemp: Temp, dest: string): (r: Result<Transition, Error>)
    ensures dest == "0" ==> r == Success(NoTrans)
    ensures r.Failure? <==> dest != "0" && lastTemp.IntZero?
    ensures r.Failure? ==> r.error == IntTempCompared(id)
    ensures dest != "0" && lastTemp.Str? ==>
      && (r == Success(High2Low) <==> LexLess(dest, lastTemp.digits))
      && (r == Success(NoTrans) <==> dest == lastTemp.digits)
      && (r == Success(Low2High) <==> LexLess(lastTemp.digits, dest))
  {
    if dest == "0" then Success(NoTrans)
    else
      match lastTemp
      case IntZero => Failure(IntTempCompared(id))
      case Str(last) =>
        LexTrichotomy(last, dest);
        if LexLess(dest, last) then Success(High2Low)
        else if last == dest then Success(NoTrans)
        else Success(Low2High)
  }

  /** For temperatures written with the same number of digits the class follows numeric order. */
  lemma TransitionNumeric(id: string, last: string, dest: string)
    requires IsDigits(last) && IsDigits(dest) && |last| == |dest| && dest != "0"
    ensures TransitionFor(id, Str(last), dest) == Success(High2Low) <==> DigitsValue(dest) < DigitsValue(last)
    ensures TransitionFor(id, Str(last), dest) == Success(NoTrans) <==> DigitsValue(dest) == DigitsValue(last)
    ensures TransitionFor(id, Str(last), dest) == Success(Low2High) <==> DigitsValue(last) < DigitsValue(dest)
  {
    LexMatchesNumeric(last, dest);
    LexMatchesNumeric(dest, last);
  }

  /** Every key the order lists is in the dictionary. */
  predicate OrderInDict(segments: map<string, Segment>, order: seq<string>) {
    forall i :: 0 <= i < |order| ==> order[i] in segments
  }

  predicate Distinct(order: seq<string>) {
    forall i, j :: 0 <= i < j < |order| ==> order[i] != order[j]
  }

  /** The running state of the pass: the records written so far and `lastTemp`. */
  datatype Progress = Progress(classified: map<string, Classified>, lastTemp: Temp)

  /** One iteration, lines 324-341, for the segment with ordinal id. */
  function ClassifyOne(segments: map<string, Segment>, id: string, p: Progress): Result<Progress, Error>
    requires id in segments
  {
    match segments[id].destTemp
    case None => Failure(MissingDestTemp(id))
    case Some(dest) =>
      match TransitionFor(id, p.lastTemp, dest)
      case Failure(e) => Failure(e)
      case Success(t) =>
        Success(Progress(p.classified[id := Classified(segments[id], p.lastTemp, t)], Str(dest)))
  }

  /** The state after the first i segments of the order; the first exception ends the pass. */
  function ClassifyUpTo(segments: map<string, Segment>, order: seq<string>, initTemp: Temp, i: nat)
    : Result<Progress, Error>
    requires OrderInDict(segments, order) && i <= |order|
  {
    if i == 0 then Success(Progress(map[], initTemp))
    else
      match ClassifyUpTo(segments, order, initTemp, i - 1)
      case Failure(e) => Failure(e)
      case Success(p) => ClassifyOne(segments, order[i - 1], p)
  }

  /** The records the whole pass leaves, or the exception it raises. */
  function Classification(segments: map<string, Segment>, order: seq<string>, initTemp: Temp)
    : Result<map<string, Classified>, Error>
    requires OrderInDict(segments, order)
  {
    match ClassifyUpTo(segments, order, initTemp, |order|)
    case Failure(e) => Failure(e)
    case Success(p) => Success(p.classified)
  }

  /** Once an exception is raised the later segments are not visited. */
  lemma {:induction false} FailureSticks(segments: map<string, Segment>, order: seq<string>, initTemp: Temp, i: nat, j: nat)
    requires OrderInDict(segments, order) && i <= j <= |order|
    requires ClassifyUpTo(segments, order, initTemp, i).Failure?
    ensures ClassifyUpTo(segments, order, initTemp, j) == ClassifyUpTo(segments, order, initTemp, i)
    decreases j
  {
    if j > i {
      FailureSticks(segments, order, initTemp, i, j - 1);
    }
  }

  /** The loop of lines 320-341. */
  method ClassifyTransitions(segments: map<string, Segment>, order: seq<string>, initTemp: Temp)
    returns (r: Result<map<string, Classified>, Error>)
    requires OrderInDict(segments, order)
    ensures r == Classification(segments, order, initTemp)
  {
    var classified: map<string, Classified> := map[];
    var lastTemp := initTemp;
    var i := 0;
    while i < |order|
      invariant 0 <= i <= |order|
      invariant ClassifyUpTo(segments, order, initTemp, i) == Success(Progress(classified, lastTemp))
    {
      var id := order[i];
      var seg := segments[id];
      if seg.destTemp.None? {
        FailureSticks(segments, order, initTemp, i + 1, |order|);
        return Failure(MissingDestTemp(id));
      }
      var dest := seg.destTemp.value;
      var transition;
      if dest == "0" {
        transition := NoTrans;
      } else {
        if lastTemp.IntZero? {
          FailureSticks(segments, order, initTemp, i + 1, |order|);
          return Failure(IntTempCompared(id));
        }
        if LexLess(dest, lastTemp.digits) {
          transition := High2Low;
        } else if lastTemp.digits == dest {
          transition := NoTrans;
        } else {
          transition := Low2High;
        }
      }
      classified := classified[id := Classified(seg, lastTemp, transition)];
      lastTemp := Str(dest);
      i := i + 1;
    }
    r := Success(classified);
  }

  /** What the first i iterations have written, when none of them raised. */
  ghost predicate ProgressOk(segments: map<string, Segment>, order: seq<string>, initTemp: Temp, i: nat, p: Progress)
    requires OrderInDict(segments, order) && i <= |order|
  {
    && (forall j :: 0 <= j < i ==> segments[order[j]].destTemp.Some?)
    && p.lastTemp == (if i == 0 then initTemp else Str(segments[order[i - 1]].destTemp.value))
    && (forall id :: id in p.classified <==> id in order[..i])
    && (forall j :: 0 <= j < i ==>
          && p.classified[order[j]].seg == segments[order[j]]
          && TransitionFor(order[j], p.classified[order[j]].currTemp, segments[order[j]].destTemp.value)
             == Success(p.classified[order[j]].transition))
    && (i > 0 ==> p.classified[order[0]].currTemp == initTemp)
    && (forall j, k :: 0 <= j && k == j + 1 && k < i ==>
          p.classified[order[k]].currTemp == Str(segments[order[j]].destTemp.value))
  }

  lemma ProgressStep(segments: map<string, Segment>, order: seq<string>, initTemp: Temp, i: nat, p: Progress)
    requires OrderInDict(segments, order) && Distinct(order) && 0 < i <= |order|
    requires ProgressOk(segments, order, initTemp, i - 1, p)
    requires ClassifyOne(segments, order[i - 1], p).Success?
    ensures ProgressOk(segments, order, initTemp, i, ClassifyOne(segments, order[i - 1], p).value)
  {
    var id := order[i - 1];
    var dest := segments[id].destTemp.value;
    var t := TransitionFor(id, p.lastTemp, dest).value;
    ProgressExtend(segments, order, initTemp, i, p, dest, t);
  }

  /** The record of segment order[i - 1] added to the state of the first i - 1 iterations. */
  function Extended(segments: map<string, Segment>, order: seq<string>, i: nat, p: Progress, dest: string, t: Transition)
    : Progress
    requires OrderInDict(segments, order) && 0 < i <= |order|
  {
    Progress(p.classified[order[i - 1] := Classified(segments[order[i - 1]], p.lastTemp, t)], Str(dest))
  }

  lemma ProgressExtend(segments: map<string, Segment>, order: seq<string>, initTemp: Temp, i: nat, p: Progress,
                       dest: string, t: Transition)
    requires OrderInDict(segments, order) && Distinct(order) && 0 < i <= |order|
    requires ProgressOk(segments, order, initTemp, i - 1, p)
    requires segments[order[i - 1]].destTemp == Some(dest)
    requires TransitionFor(order[i - 1], p.lastTemp, dest) == Success(t)
    ensures ProgressOk(segments, order, initTemp, i, Extended(segments, order, i, p, dest, t))
  {
    ExtendedDomain(segments, order, initTemp, i, p, dest, t);
    ExtendedRecords(segments, order, initTemp, i, p, dest, t);
    ExtendedChain(segments, order, initTemp, i, p, dest, t);
  }

  lemma ExtendedDomain(segments: map<string, Segment>, order: seq<string>, initTemp: Temp, i: nat, p: Progress,
                       dest: string, t: Transition)
    requires OrderInDict(segments, order) && 0 < i <= |order|
    requires forall id :: id in p.classified <==> id in order[..i - 1]
    ensures forall id :: id in Extended(segments, order, i, p, dest, t).classified <==> id in order[..i]
  {
  }

  lemma ExtendedRecords(segments: map<string, Segment>, order: seq<string>, initTemp: Temp, i: nat, p: Progress,
                        dest: string, t: Transition)
    requires OrderInDict(segments, order) && Distinct(order) && 0 < i <= |order|
    requires forall j :: 0 <= j < i ==> segments[order[j]].destTemp.Some?
    requires segments[order[i - 1]].destTemp == Some(dest)
    requires TransitionFor(order[i - 1], p.lastTemp, dest) == Success(t)
    requires forall j :: 0 <= j < i - 1 ==>
          && order[j] in p.classified
          && p.classified[order[j]].seg == segments[order[j]]
          && TransitionFor(order[j], p.classified[order[j]].currTemp, segments[order[j]].destTemp.value)
             == Success(p.classified[order[j]].transition)
    ensures var q := Extended(segments, order, i, p, dest, t).classified;
      forall j :: 0 <= j < i ==>
          && q[order[j]].seg == segments[order[j]]
          && TransitionFor(order[j], q[order[j]].currTemp, segments[order[j]].destTemp.value)
             == Success(q[order[j]].transition)
  {
  }

  lemma ExtendedChain(segments: map<string, Segment>, order: seq<string>, initTemp: Temp, i: nat, p: Progress,
                      dest: string, t: Transition)
    requires OrderInDict(segments, order) && Distinct(order) && 0 < i <= |order|
    requires forall j :: 0 <= j < i ==> segments[order[j]].destTemp.Some?
    requires forall j :: 0 <= j < i - 1 ==> order[j] in p.classified
    requires p.lastTemp == (if i - 1 == 0 then initTemp else Str(segments[order[i - 2]].destTemp.value))
    requires i - 1 > 0 ==> p.classified[order[0]].currTemp == initTemp
    requires forall j, k :: 0 <= j && k == j + 1 && k < i - 1 ==>
          p.classified[order[k]].currTemp == Str(segments[order[j]].destTemp.value)
    ensures var q := Extended(segments, order, i, p, dest, t).classified;
      && q[order[0]].currTemp == initTemp
      && forall j, k :: 0 <= j && k == j + 1 && k < i ==>
          q[order[k]].currTemp == Str(segments[order[j]].destTemp.value)
  {
  }

  lemma {:induction false} ClassifyUpToFacts(segments: map<string, Segment>, order: seq<string>, initTemp: Temp, i: nat)
    requires OrderInDict(segments, order) && Distinct(order) && i <= |order|
    requires ClassifyUpTo(segments, order, initTemp, i).Success?
    ensures ProgressOk(segments, order, initTemp, i, ClassifyUpTo(segments, order, initTemp, i).value)
  {
    if i > 0 {
      ClassifyUpToFacts(segments, order, initTemp, i - 1);
      ProgressStep(segments, order, initTemp, i, ClassifyUpTo(segments, order, initTemp, i - 1).value);
    }
  }

  /**
   * On success every segment of the order is classified exactly once, with
   * its own record, and the temperatures chain: the first segment is entered
   * at initTemp, every later one at the destination of the one before it.
   */
  lemma ClassificationChain(segments: map<string, Segment>, order: seq<string>, initTemp: Temp)
    requires OrderInDict(segments, order) && Distinct(order)
    requires Classification(segments, order, initTemp).Success?
    ensures var cl := Classification(segments, order, initTemp).value;
      && (forall id :: id in cl <==> id in order)
      && (forall j :: 0 <= j < |order| ==> segments[order[j]].destTemp.Some?)
      && (forall j :: 0 <= j < |order| ==> cl[order[j]].seg == segments[order[j]])
      && (|order| > 0 ==> cl[order[0]].currTemp == initTemp)
      && (forall j :: 0 < j < |order| ==> cl[order[j]].currTemp == Str(segments[order[j - 1]].destTemp.value))
      && (forall j :: 0 <= j < |order| ==>
            TransitionFor(order[j], cl[order[j]].currTemp, segments[order[j]].destTemp.value)
              == Success(cl[order[j]].transition))
  {
    ClassifyUpToFacts(segments, order, initTemp, |order|);
    var cl := Classification(segments, order, initTemp).value;
    assert order[..|order|] == order;
    forall j | 0 < j < |order| ensures cl[order[j]].currTemp == Str(segments[order[j - 1]].destTemp.value) {
      var j0 := j - 1;
      assert 0 <= j0 && j == j0 + 1;
    }
  }

  /**
   * The pass raises exactly when some segment has no destination
   * temperature, or when the first one is compared with the int 0.
   */
  lemma {:induction false} ClassifyUpToSucceeds(segments: map<string, Segment>, order: seq<string>, initTemp: Temp, i: nat)
    requires OrderInDict(segments, order) && i <= |order|
    ensures ClassifyUpTo(segments, order, initTemp, i).Success? <==>
      && (forall j :: 0 <= j < i ==> segments[order[j]].destTemp.Some?)
      && (i > 0 && initTemp.IntZero? ==> segments[order[0]].destTemp == Some("0"))
    ensures ClassifyUpTo(segments, order, initTemp, i).Success? && i > 0 ==>
      ClassifyUpTo(segments, order, initTemp, i).value.lastTemp.Str?
  {
    if i > 0 {
      ClassifyUpToSucceeds(segments, order, initTemp, i - 1);
    }
  }

  lemma ClassificationSucceeds(segments: map<string, Segment>, order: seq<string>, initTemp: Temp)
    requires OrderInDict(segments, order)
    ensures Classification(segments, order, initTemp).Success? <==>
      && (forall j :: 0 <= j < |order| ==> segments[order[j]].destTemp.Some?)
      && (|order| > 0 && initTemp.IntZero? ==> segments[order[0]].destTemp == Some("0"))
  {
    ClassifyUpToSucceeds(segments, order, initTemp, |order|);
  }

  /**
   * The exception raised is the first one met: the TypeError of the first
   * segment when it is compared with the int 0, and otherwise the KeyError
   * of the first segment without destination.
   */
  lemma {:induction false} ClassifyUpToError(segments: map<string, Segment>, order: seq<string>, initTemp: Temp, i: nat)
    requires OrderInDict(segments, order) && i <= |order|
    requires ClassifyUpTo(segments, order, initTemp, i).Failure?
    ensures var e := ClassifyUpTo(segments, order, initTemp, i).error;
      || (e == IntTempCompared(order[0]) && initTemp.IntZero?
          && segments[order[0]].destTemp.Some? && segments[order[0]].destTemp != Some("0"))
      || (exists j :: 0 <= j < i && e == MissingDestTemp(order[j]) && segments[order[j]].destTemp.None?
            && forall j' :: 0 <= j' < j ==> segments[order[j']].destTemp.Some?)
    ensures 1 <= i && initTemp.IntZero? && segments[order[0]].destTemp.Some? && segments[order[0]].destTemp != Some("0") ==>
      ClassifyUpTo(segments, order, initTemp, i).error == IntTempCompared(order[0])
  {
    if 1 <= i && initTemp.IntZero? && segments[order[0]].destTemp.Some? && segments[order[0]].destTemp != Some("0") {
      FirstComparedRaises(segments, order, initTemp, i);
    }
    ClassifyUpToSucceeds(segments, order, initTemp, i - 1);
    if ClassifyUpTo(segments, order, initTemp, i - 1).Failure? {
      ClassifyUpToError(segments, order, initTemp, i - 1);
    } else {
      var j := i - 1;
      if segments[order[j]].destTemp.None? {
        assert 0 <= j < i && ClassifyUpTo(segments, order, initTemp, i).error == MissingDestTemp(order[j]);
      }
    }
  }

  /** The first segment compared with the int 0 raises before any later segment is visited. */
  lemma FirstComparedRaises(segments: map<string, Segment>, order: seq<string>, initTemp: Temp, i: nat)
    requires OrderInDict(segments, order) && 1 <= i <= |order|
    requires initTemp.IntZero? && segments[order[0]].destTemp.Some? && segments[order[0]].destTemp != Some("0")
    ensures ClassifyUpTo(segments, order, initTemp, i) == Failure(IntTempCompared(order[0]))
  {
  }
}
