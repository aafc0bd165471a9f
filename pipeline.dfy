/**
 * The whole script on one file (mmuGcodeParser.py:242-385): scan, classify,
 * rewrite. The input is the file's lines as Python's file iterator yields
 * them; the result is the chunks written to the output file, or the
 * exception that ends the script.
 */
module Pipeline {
  import opened Wrappers
  import opened Markers
  import opened Segments
  import opened Scanner
  import opened ScanFacts
  import opened Transitions
  import opened Handlers
  import opened Rewriter

  /** The scanner's key order lists exactly its dictionary's keys, each once. */
  lemma ScanOrderFits(lines: seq<string>)
    ensures OrderInDict(ScanSpec(lines).segments, ScanSpec(lines).order)
    ensures Distinct(ScanSpec(lines).order)
    ensures forall id :: id in ScanSpec(lines).order <==> id in ScanSpec(lines).segments
  {
    ScanOrder(lines);
  }

  /** The records after the second pass. */
  function ClassifiedOf(lines: seq<string>): Result<map<string, Classified>, Error> {
    var st := ScanSpec(lines);
    ScanOrderFits(lines);
    Classification(st.segments, st.order, st.initTemp)
  }

  lemma ClassifiedFits(lines: seq<string>)
    requires ClassifiedOf(lines).Success?
    ensures Classifies(ClassifiedOf(lines).value, ScanSpec(lines).order)
  {
    var st := ScanSpec(lines);
    ScanOrderFits(lines);
    ClassificationChain(st.segments, st.order, st.initTemp);
  }

  /** What the script writes, or the exception it raises. */
  function ProcessSpec(lines: seq<string>, d: int): Result<seq<string>, Error> {
    match ClassifiedOf(lines)
    case Failure(e) => Failure(e)
    case Success(cl) =>
      ClassifiedFits(lines);
      RewriteSpec(lines, cl, ScanSpec(lines).order, d)
  }

  /** The three passes in turn; d is ram_temp_diff. */
  method Process(lines: seq<string>, d: int) returns (r: Result<seq<string>, Error>)
    ensures r == ProcessSpec(lines, d)
  {
    var st := Scan(lines);
    ScanOrderFits(lines);
    var c := ClassifyTransitions(st.segments, st.order, st.initTemp);
    if c.Failure? {
      return Failure(c.error);
    }
    ClassifiedFits(lines);
    r := Rewrite(lines, c.value, st.order, d);
  }

  /** The edit the rewrite uses for line n, once the second pass succeeded. */
  function LineEdit(lines: seq<string>, d: int, n: nat): Result<Edit, Error>
    requires ClassifiedOf(lines).Success?
  {
    ClassifiedFits(lines);
    EditFor(ClassifiedOf(lines).value, ScanSpec(lines).order, n, d)
  }

  /**
   * Line n is handled by the segment, if any, that recorded it: by that
   * segment's handler, with the role the scanner gave the line; a line no
   * segment recorded is written unchanged.
   */
  lemma LineEditOwner(lines: seq<string>, d: int, n: nat)
    requires ClassifiedOf(lines).Success?
    ensures forall id :: id in ScanSpec(lines).segments && n in ScanSpec(lines).segments[id].roles ==>
      && id in ClassifiedOf(lines).value
      && ClassifiedOf(lines).value[id].seg == ScanSpec(lines).segments[id]
      && LineEdit(lines, d, n) == Handle(ClassifiedOf(lines).value[id], n, d)
    ensures (forall id :: id in ScanSpec(lines).segments ==> n !in ScanSpec(lines).segments[id].roles) ==>
      LineEdit(lines, d, n) == Success(KEEP)
  {
    var st := ScanSpec(lines);
    var cl := ClassifiedOf(lines).value;
    ScanOrderFits(lines);
    ClassificationChain(st.segments, st.order, st.initTemp);
    ClassifiedFits(lines);
    forall id | id in st.segments && n in st.segments[id].roles
      ensures id in cl && cl[id].seg == st.segments[id] && LineEdit(lines, d, n) == Handle(cl[id], n, d)
    {
      assert id in st.order;
      var j :| 0 <= j < |st.order| && st.order[j] == id;
      forall h | 0 <= h < |st.order| && h != j ensures n !in cl[st.order[h]].seg.roles {
        if n in cl[st.order[h]].seg.roles {
          ScanRolesDisjoint(lines, id, st.order[h], n);
        }
      }
      EditForOwner(cl, st.order, n, d, j);
    }
    if forall id :: id in st.segments ==> n !in st.segments[id].roles {
      forall h | 0 <= h < |st.order| ensures n !in cl[st.order[h]].seg.roles {
        assert st.order[h] in st.segments;
      }
      EditForUnowned(cl, st.order, n, d);
    }
  }

  /** A line before the first toolchange marker is written unchanged. */
  lemma PreambleKept(lines: seq<string>, d: int, n: nat)
    requires ClassifiedOf(lines).Success?
    requires 1 <= n <= |lines| && Opener(KindsOf(lines), n) == 0
    ensures LineEdit(lines, d, n) == Success(KEEP)
  {
    ScanPreambleUnrecorded(lines, n);
    LineEditOwner(lines, d, n);
  }

  /** An M104 line after the first one of its segment is written unchanged. */
  lemma LaterTempKept(lines: seq<string>, d: int, u: nat, n: nat)
    requires ClassifiedOf(lines).Success?
    requires 1 <= u < n <= |lines| && Opener(KindsOf(lines), n) < u
    requires Classify(lines[u - 1]).TempSet? && Classify(lines[n - 1]).TempSet?
    ensures LineEdit(lines, d, n) == Success(KEEP)
  {
    ScanLaterTempUnrecorded(lines, u, n);
    LineEditOwner(lines, d, n);
  }

  /**
   * The first M104 line of a segment that changes temperature is commented
   * out; in a segment without a change it is written unchanged.
   */
  lemma FirstTempEdit(lines: seq<string>, d: int, id: string, n: nat)
    requires ClassifiedOf(lines).Success?
    requires id in ScanSpec(lines).segments && 1 <= n <= |lines|
    requires FirstTempOf(KindsOf(lines), LastStartOf(KindsOf(lines), id, |lines|), n)
    ensures id in ClassifiedOf(lines).value
    ensures ClassifiedOf(lines).value[id].transition == NoTrans ==> LineEdit(lines, d, n) == Success(KEEP)
    ensures ClassifiedOf(lines).value[id].transition != NoTrans ==> LineEdit(lines, d, n) == Success(Edit("", -9))
  {
    var seg := ScanSpec(lines).segments[id];
    ScanRecorded(lines, id, n);
    assert n in seg.roles && seg.roles[n] == DestTempLine;
    LineEditOwner(lines, d, n);
    HandleDestTemp(ClassifiedOf(lines).value[id], n, d);
  }

  /** The edits of lines 1..|lines|, when none raises. */
  function LineEdits(lines: seq<string>, d: int): (es: seq<Edit>)
    requires ClassifiedOf(lines).Success?
    requires forall n :: 1 <= n <= |lines| ==> LineEdit(lines, d, n).Success?
    ensures |es| == |lines|
    ensures forall i :: 0 <= i < |lines| ==> Success(es[i]) == LineEdit(lines, d, i + 1)
    ensures forall i :: 0 <= i < |lines| ==> ValidAction(es[i].action)
  {
    ClassifiedFits(lines);
    var cl := ClassifiedOf(lines).value;
    var order := ScanSpec(lines).order;
    assert forall n :: 1 <= n <= |lines| ==> LineEdit(lines, d, n) == EditFor(cl, order, n, d);
    var es := EditsUpTo(cl, order, d, |lines|);
    assert forall i :: 0 <= i < |lines| ==> ValidAction(es[i].action) by {
      forall i | 0 <= i < |lines| ensures ValidAction(es[i].action) {
        var n := i + 1;
        assert LineEdit(lines, d, n).Success?;
        assert EditUpTo(cl, order, n, d, |order|) == EditFor(cl, order, n, d);
        EditUpToValid(cl, order, n, d, |order|);
      }
    }
    es
  }

  /** A completed run means the second pass succeeded and no line's handler raised. */
  lemma ProcessNoRaise(lines: seq<string>, d: int)
    requires ProcessSpec(lines, d).Success?
    ensures ClassifiedOf(lines).Success?
    ensures forall n :: 1 <= n <= |lines| ==> LineEdit(lines, d, n).Success?
  {
    ClassifiedFits(lines);
    var cl := ClassifiedOf(lines).value;
    var order := ScanSpec(lines).order;
    ProcessIsRewrite(lines, d);
    RewriteUpToSucceeds(lines, cl, order, d, |lines|);
    forall n | 1 <= n <= |lines| ensures LineEdit(lines, d, n).Success? {
      assert LineEdit(lines, d, n) == EditFor(cl, order, n, d);
    }
  }

  /** Once the second pass succeeded, the script's result is that of the rewrite pass. */
  lemma ProcessIsRewrite(lines: seq<string>, d: int)
    requires ClassifiedOf(lines).Success?
    requires Classifies(ClassifiedOf(lines).value, ScanSpec(lines).order)
    ensures ProcessSpec(lines, d) == RewriteUpTo(lines, ClassifiedOf(lines).value, ScanSpec(lines).order, d, |lines|)
  {
  }

  /** The script's run as the rewrite pass sees it. */
  lemma ProcessRewrites(lines: seq<string>, d: int)
    requires ProcessSpec(lines, d).Success? && ClassifiedOf(lines).Success?
    requires Classifies(ClassifiedOf(lines).value, ScanSpec(lines).order)
    ensures forall n :: 1 <= n <= |lines| ==> EditFor(ClassifiedOf(lines).value, ScanSpec(lines).order, n, d).Success?
    ensures ProcessSpec(lines, d).value
      == Render(lines, EditsUpTo(ClassifiedOf(lines).value, ScanSpec(lines).order, d, |lines|))
  {
    var cl := ClassifiedOf(lines).value;
    var order := ScanSpec(lines).order;
    ProcessIsRewrite(lines, d);
    RewriteUpToSucceeds(lines, cl, order, d, |lines|);
    RewriteSpecRender(lines, cl, order, d);
  }

  /** LineEdits is the sequence of edits the rewrite pass picks. */
  lemma LineEditsPicked(lines: seq<string>, d: int)
    requires ClassifiedOf(lines).Success?
    requires Classifies(ClassifiedOf(lines).value, ScanSpec(lines).order)
    requires forall n :: 1 <= n <= |lines| ==> LineEdit(lines, d, n).Success?
    requires forall n :: 1 <= n <= |lines| ==> EditFor(ClassifiedOf(lines).value, ScanSpec(lines).order, n, d).Success?
    ensures LineEdits(lines, d) == EditsUpTo(ClassifiedOf(lines).value, ScanSpec(lines).order, d, |lines|)
  {
  }

  /**
   * When the script completes, no handler raised, and the file holds every
   * input line once, in order, each written as its edit says.
   */
  lemma ProcessOutput(lines: seq<string>, d: int)
    requires ProcessSpec(lines, d).Success?
    ensures ClassifiedOf(lines).Success?
    ensures forall n :: 1 <= n <= |lines| ==> LineEdit(lines, d, n).Success?
    ensures ProcessSpec(lines, d).value == Render(lines, LineEdits(lines, d))
  {
    ProcessNoRaise(lines, d);
    ClassifiedFits(lines);
    ProcessRewrites(lines, d);
    LineEditsPicked(lines, d);
  }

  /** The file has one chunk per input line plus one per inserted command. */
  lemma ProcessLength(lines: seq<string>, d: int)
    requires ProcessSpec(lines, d).Success?
    ensures ClassifiedOf(lines).Success?
    ensures forall n :: 1 <= n <= |lines| ==> LineEdit(lines, d, n).Success?
    ensures |ProcessSpec(lines, d).value| == |lines| + Insertions(LineEdits(lines, d))
  {
    ProcessOutput(lines, d);
    RenderLength(lines, LineEdits(lines, d));
  }

  /**
   * The exceptions the script can end with: a segment without an M104 line,
   * the first segment compared with the int 0 when no M104 line precedes the
   * first marker, or an entry temperature that is not a number. The
   * TypeError of line 184 never happens: a High2Low segment was entered at a
   * str.
   */
  lemma ProcessErrors(lines: seq<string>, d: int)
    requires ProcessSpec(lines, d).Failure?
    ensures ProcessSpec(lines, d).error.MissingDestTemp?
      || ProcessSpec(lines, d).error.IntTempCompared?
      || ProcessSpec(lines, d).error.EmptyTempParsed?
  {
    var st := ScanSpec(lines);
    ScanOrderFits(lines);
    if ClassifiedOf(lines).Failure? {
      ClassifyUpToError(st.segments, st.order, st.initTemp, |st.order|);
    } else {
      var cl := ClassifiedOf(lines).value;
      ClassifiedFits(lines);
      ClassificationChain(st.segments, st.order, st.initTemp);
      RewriteUpToMeaning(lines, cl, st.order, d, |lines|);
      var n :| 1 <= n <= |lines| && EditFor(cl, st.order, n, d) == Failure(ProcessSpec(lines, d).error);
      EditErrors(cl, st.order, st.segments, st.initTemp, n, d, |st.order|);
    }
  }

  /** A handler call on classified records never concatenates the int 0 and never misses a destination. */
  lemma {:induction false} EditErrors(cl: map<string, Classified>, order: seq<string>, segments: map<string, Segment>,
                                      initTemp: Temp, n: nat, d: int, i: nat)
    requires OrderInDict(segments, order) && Distinct(order)
    requires Classification(segments, order, initTemp) == Success(cl)
    requires Classifies(cl, order) && i <= |order|
    requires EditUpTo(cl, order, n, d, i).Failure?
    ensures EditUpTo(cl, order, n, d, i).error.EmptyTempParsed?
  {
    ClassificationChain(segments, order, initTemp);
    if EditUpTo(cl, order, n, d, i - 1).Failure? {
      EditErrors(cl, order, segments, initTemp, n, d, i - 1);
    } else {
      var c := cl[order[i - 1]];
      HandleFails(c, n, d);
      assert TransitionFor(order[i - 1], c.currTemp, segments[order[i - 1]].destTemp.value) == Success(c.transition);
    }
  }
}
