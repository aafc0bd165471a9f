/**
 * The third pass (mmuGcodeParser.py:348-385): every line is written out
 * again, changed as the handler of the segment that recorded its number
 * asks. The output file is modelled as the sequence of chunks written to
 * it, in order.
 */
module Rewriter {
  import opened Wrappers
  import opened Segments
  import opened Transitions
  import opened Handlers

  /** Every key the order lists has a classified record. */
  predicate Classifies(cl: map<string, Classified>, order: seq<string>) {
    forall i :: 0 <= i < |order| ==> order[i] in cl
  }

  /**
   * (output, action) for line n after the inner loop (lines 356-366) has
   * visited the first i segments: every segment that recorded n calls its
   * handler and the last one wins; a handler that raises ends the script.
   */
  function EditUpTo(cl: map<string, Classified>, order: seq<string>, n: nat, d: int, i: nat): Result<Edit, Error>
    requires Classifies(cl, order) && i <= |order|
  {
    if i == 0 then Success(KEEP)
    else
      match EditUpTo(cl, order, n, d, i - 1)
      case Failure(e) => Failure(e)
      case Success(e) =>
        var c := cl[order[i - 1]];
        if n in c.seg.roles then Handle(c, n, d) else Success(e)
  }

  function EditFor(cl: map<string, Classified>, order: seq<string>, n: nat, d: int): Result<Edit, Error>
    requires Classifies(cl, order)
  {
    EditUpTo(cl, order, n, d, |order|)
  }

  /** What lines 369-381 write for a line, given its edit. */
  function Emit(line: string, e: Edit): (out: seq<string>)
    ensures e.action == 0 ==> out == [line]
    ensures e.action == 1 ==> out == [line, InsertedLine(e)]
    ensures e.action == -1 ==> out == [InsertedLine(e), line]
    ensures e.action == -9 ==> out == [";" + line]
    ensures !ValidAction(e.action) ==> out == []
  {
    (if e.action == 1 then [line, InsertedLine(e)] else [])
    + (if e.action == -1 then [InsertedLine(e), line] else [])
    + (if e.action == -9 then [";" + line] else [])
    + (if e.action == 0 then [line] else [])
  }

  /** The edit picked for each of the lines 1..count, or the exception its handler raises. */
  function Outcomes(cl: map<string, Classified>, order: seq<string>, d: int, count: nat): (rs: seq<Result<Edit, Error>>)
    requires Classifies(cl, order)
    ensures |rs| == count
    ensures forall i :: 0 <= i < count ==> rs[i] == EditFor(cl, order, i + 1, d)
  {
    seq(count, i requires 0 <= i < count => EditFor(cl, order, i + 1, d))
  }

  /** The chunks written for lines 1..k, given each line's outcome, or the first exception. */
  function RenderUpTo(lines: seq<string>, rs: seq<Result<Edit, Error>>, k: nat): Result<seq<string>, Error>
    requires |rs| == |lines| && k <= |lines|
  {
    if k == 0 then Success([])
    else
      match RenderUpTo(lines, rs, k - 1)
      case Failure(e) => Failure(e)
      case Success(out) =>
        match rs[k - 1]
        case Failure(e) => Failure(e)
        case Success(e) => Success(out + Emit(lines[k - 1], e))
  }

  /** The chunks written for lines 1..k, or the first exception. */
  function RewriteUpTo(lines: seq<string>, cl: map<string, Classified>, order: seq<string>, d: int, k: nat)
    : Result<seq<string>, Error>
    requires Classifies(cl, order) && k <= |lines|
  {
    RenderUpTo(lines, Outcomes(cl, order, d, |lines|), k)
  }

  function RewriteSpec(lines: seq<string>, cl: map<string, Classified>, order: seq<string>, d: int)
    : Result<seq<string>, Error>
    requires Classifies(cl, order)
  {
    RewriteUpTo(lines, cl, order, d, |lines|)
  }

  lemma {:induction false} EditSticks(cl: map<string, Classified>, order: seq<string>, n: nat, d: int, i: nat, j: nat)
    requires Classifies(cl, order) && i <= j <= |order| && EditUpTo(cl, order, n, d, i).Failure?
    ensures EditUpTo(cl, order, n, d, j) == EditUpTo(cl, order, n, d, i)
    decreases j
  {
    if j > i {
      EditSticks(cl, order, n, d, i, j - 1);
    }
  }

  lemma {:induction false} RenderUpToSticks(lines: seq<string>, rs: seq<Result<Edit, Error>>, k: nat, m: nat)
    requires |rs| == |lines| && k <= m <= |lines| && RenderUpTo(lines, rs, k).Failure?
    ensures RenderUpTo(lines, rs, m) == RenderUpTo(lines, rs, k)
    decreases m
  {
    if m > k {
      RenderUpToSticks(lines, rs, k, m - 1);
    }
  }

  /** One line of the pass: its edit is appended to what lines 1..k - 1 wrote. */
  lemma RewriteStep(lines: seq<string>, cl: map<string, Classified>, order: seq<string>, d: int, k: nat,
                    out: seq<string>, e: Edit)
    requires Classifies(cl, order) && 0 < k <= |lines|
    requires RewriteUpTo(lines, cl, order, d, k - 1) == Success(out)
    requires EditFor(cl, order, k, d) == Success(e)
    ensures RewriteUpTo(lines, cl, order, d, k) == Success(out + Emit(lines[k - 1], e))
  {
  }

  /** A handler that raises on line k ends the pass with its exception. */
  lemma RewriteFails(lines: seq<string>, cl: map<string, Classified>, order: seq<string>, d: int, k: nat,
                     out: seq<string>, e: Error)
    requires Classifies(cl, order) && 0 < k <= |lines|
    requires RewriteUpTo(lines, cl, order, d, k - 1) == Success(out)
    requires EditFor(cl, order, k, d) == Failure(e)
    ensures RewriteSpec(lines, cl, order, d) == Failure(e)
  {
    var rs := Outcomes(cl, order, d, |lines|);
    assert rs[k - 1] == EditFor(cl, order, k, d);
    assert RenderUpTo(lines, rs, k) == Failure(e);
    RenderUpToSticks(lines, rs, k, |lines|);
  }

  /** The inner loop of lines 356-366: the edit of line n, or the first exception a handler raises. */
  method PickEdit(cl: map<string, Classified>, order: seq<string>, n: nat, d: int) returns (r: Result<Edit, Error>)
    requires Classifies(cl, order)
    ensures r == EditFor(cl, order, n, d)
  {
    var output := "";
    var action := 0;
    var i := 0;
    while i < |order|
      invariant 0 <= i <= |order|
      invariant EditUpTo(cl, order, n, d, i) == Success(Edit(output, action))
    {
      var c := cl[order[i]];
      if n in c.seg.roles {
        var h := Handle(c, n, d);
        if h.Failure? {
          EditSticks(cl, order, n, d, i + 1, |order|);
          return Failure(h.error);
        }
        output, action := h.value.output, h.value.action;
      }
      i := i + 1;
    }
    r := Success(Edit(output, action));
  }

  /** Lines 369-381: what is written for one line, given the edit its handlers chose. */
  method EmitLine(out: seq<string>, line: string, e: Edit) returns (out': seq<string>)
    ensures out' == out + Emit(line, e)
  {
    var output, action := e.output, e.action;
    out' := out;
    if action == 1 {
      out' := out' + [line];
      out' := out' + [output + MYGCODEMARK + "\n"];
    }
    if action == -1 {
      out' := out' + [output + MYGCODEMARK + "\n"];
      out' := out' + [line];
    }
    if action == -9 {
      out' := out' + [";" + line];
    }
    if action == 0 {
      out' := out' + [line];
    }
  }

  /** The loop of lines 348-385. */
  method Rewrite(lines: seq<string>, cl: map<string, Classified>, order: seq<string>, d: int)
    returns (r: Result<seq<string>, Error>)
    requires Classifies(cl, order)
    ensures r == RewriteSpec(lines, cl, order, d)
  {
    var out: seq<string> := [];
    var lineNumber := 1;
    while lineNumber <= |lines|
      invariant 1 <= lineNumber <= |lines| + 1
      invariant RewriteUpTo(lines, cl, order, d, lineNumber - 1) == Success(out)
    {
      var line := lines[lineNumber - 1];
      var h := PickEdit(cl, order, lineNumber, d);
      if h.Failure? {
        RewriteFails(lines, cl, order, d, lineNumber, out, h.error);
        return Failure(h.error);
      }
      RewriteStep(lines, cl, order, d, lineNumber, out, h.value);
      out := EmitLine(out, line, h.value);
      lineNumber := lineNumber + 1;
    }
    r := Success(out);
  }

  /** Every edit a handler chose has one of the four actions. */
  lemma {:induction false} EditUpToValid(cl: map<string, Classified>, order: seq<string>, n: nat, d: int, i: nat)
    requires Classifies(cl, order) && i <= |order| && EditUpTo(cl, order, n, d, i).Success?
    ensures ValidAction(EditUpTo(cl, order, n, d, i).value.action)
  {
    if i > 0 && EditUpTo(cl, order, n, d, i - 1).Success? {
      EditUpToValid(cl, order, n, d, i - 1);
    }
  }

  /**
   * When only the segment at position j of the order recorded line n, the
   * line gets that segment's handler's answer; when none did, it is kept.
   */
  lemma {:induction false} EditUpToOwner(cl: map<string, Classified>, order: seq<string>, n: nat, d: int, j: int, i: nat)
    requires Classifies(cl, order) && i <= |order| && -1 <= j < |order|
    requires forall h :: 0 <= h < |order| && h != j ==> n !in cl[order[h]].seg.roles
    requires 0 <= j ==> n in cl[order[j]].seg.roles
    ensures EditUpTo(cl, order, n, d, i) == if 0 <= j < i then Handle(cl[order[j]], n, d) else Success(KEEP)
  {
    if i > 0 {
      EditUpToOwner(cl, order, n, d, j, i - 1);
      if 0 <= j < i - 1 && Handle(cl[order[j]], n, d).Failure? {
        assert EditUpTo(cl, order, n, d, i - 1).Failure?;
      }
    }
  }

  lemma EditForUnowned(cl: map<string, Classified>, order: seq<string>, n: nat, d: int)
    requires Classifies(cl, order)
    requires forall h :: 0 <= h < |order| ==> n !in cl[order[h]].seg.roles
    ensures EditFor(cl, order, n, d) == Success(KEEP)
  {
    EditUpToOwner(cl, order, n, d, -1, |order|);
  }

  lemma EditForOwner(cl: map<string, Classified>, order: seq<string>, n: nat, d: int, j: nat)
    requires Classifies(cl, order) && j < |order| && n in cl[order[j]].seg.roles
    requires forall h :: 0 <= h < |order| && h != j ==> n !in cl[order[h]].seg.roles
    ensures EditFor(cl, order, n, d) == Handle(cl[order[j]], n, d)
  {
    EditUpToOwner(cl, order, n, d, j, |order|);
  }

  /** The chunks written for lines with the given edits, line after line. */
  function Render(lines: seq<string>, es: seq<Edit>): seq<string>
    requires |lines| == |es|
    decreases |lines|
  {
    if lines == [] then []
    else Render(lines[..|lines| - 1], es[..|es| - 1]) + Emit(lines[|lines| - 1], es[|es| - 1])
  }

  /** The edits of the first k outcomes, when none of them is an exception. */
  function Values(rs: seq<Result<Edit, Error>>, k: nat): (es: seq<Edit>)
    requires k <= |rs| && forall i :: 0 <= i < k ==> rs[i].Success?
    ensures |es| == k
    ensures forall i :: 0 <= i < k ==> Success(es[i]) == rs[i]
  {
    seq(k, i requires 0 <= i < k => rs[i].value)
  }

  /** The edits the pass picks for lines 1..k, when none raises. */
  function EditsUpTo(cl: map<string, Classified>, order: seq<string>, d: int, k: nat): (es: seq<Edit>)
    requires Classifies(cl, order)
    requires forall n :: 1 <= n <= k ==> EditFor(cl, order, n, d).Success?
    ensures |es| == k
    ensures forall i :: 0 <= i < k ==> Success(es[i]) == EditFor(cl, order, i + 1, d)
  {
    seq(k, i requires 0 <= i < k => EditFor(cl, order, i + 1, d).value)
  }

  /** Rendering lines 1..k succeeds exactly when none of their outcomes is an exception. */
  lemma {:induction false} RenderUpToSucceeds(lines: seq<string>, rs: seq<Result<Edit, Error>>, k: nat)
    requires |rs| == |lines| && k <= |lines|
    ensures RenderUpTo(lines, rs, k).Success? <==> forall i :: 0 <= i < k ==> rs[i].Success?
  {
    if k > 0 {
      RenderUpToSucceeds(lines, rs, k - 1);
    }
  }

  /** Rendering lines is rendering all but the last one and then emitting the last one. */
  lemma RenderSnoc(lines: seq<string>, es: seq<Edit>)
    requires 0 < |lines| == |es|
    ensures Render(lines, es) == Render(lines[..|lines| - 1], es[..|es| - 1]) + Emit(lines[|lines| - 1], es[|es| - 1])
  {
  }

  /** A successful rendering of lines 1..k is the rendering of those lines with their edits. */
  lemma {:induction false} RenderUpToRender(lines: seq<string>, rs: seq<Result<Edit, Error>>, k: nat)
    requires |rs| == |lines| && k <= |lines|
    requires forall i :: 0 <= i < k ==> rs[i].Success?
    ensures RenderUpTo(lines, rs, k) == Success(Render(lines[..k], Values(rs, k)))
  {
    if k > 0 {
      RenderUpToRender(lines, rs, k - 1);
      var es := Values(rs, k);
      assert es[..k - 1] == Values(rs, k - 1);
      assert lines[..k][..k - 1] == lines[..k - 1];
      RenderSnoc(lines[..k], es);
      assert rs[k - 1] == Success(es[k - 1]);
    }
  }

  /** A failed rendering of lines 1..k carries the exception of the first outcome that is one. */
  lemma {:induction false} RenderUpToFirstError(lines: seq<string>, rs: seq<Result<Edit, Error>>, k: nat)
    requires |rs| == |lines| && k <= |lines|
    requires RenderUpTo(lines, rs, k).Failure?
    ensures exists i :: && 0 <= i < k
                        && rs[i] == Failure(RenderUpTo(lines, rs, k).error)
                        && forall j :: 0 <= j < i ==> rs[j].Success?
  {
    var err := RenderUpTo(lines, rs, k).error;
    if RenderUpTo(lines, rs, k - 1).Failure? {
      RenderUpToFirstError(lines, rs, k - 1);
      assert RenderUpTo(lines, rs, k - 1).error == err;
      var i :| && 0 <= i < k - 1
               && rs[i] == Failure(err)
               && forall j :: 0 <= j < i ==> rs[j].Success?;
      assert 0 <= i < k;
    } else {
      RenderUpToSucceeds(lines, rs, k - 1);
      assert rs[k - 1] == Failure(err);
      assert forall j :: 0 <= j < k - 1 ==> rs[j].Success?;
    }
  }

  /** The pass over lines 1..k succeeds exactly when no handler of those lines raises. */
  lemma RewriteUpToSucceeds(lines: seq<string>, cl: map<string, Classified>, order: seq<string>, d: int, k: nat)
    requires Classifies(cl, order) && k <= |lines|
    ensures RewriteUpTo(lines, cl, order, d, k).Success? <==>
      forall n :: 1 <= n <= k ==> EditFor(cl, order, n, d).Success?
  {
    var rs := Outcomes(cl, order, d, |lines|);
    RenderUpToSucceeds(lines, rs, k);
    if forall i :: 0 <= i < k ==> rs[i].Success? {
      forall n | 1 <= n <= k ensures EditFor(cl, order, n, d).Success? {
        assert rs[n - 1].Success?;
      }
    }
  }

  /** A successful pass over lines 1..k writes the rendering of those lines with their edits. */
  lemma RewriteUpToRender(lines: seq<string>, cl: map<string, Classified>, order: seq<string>, d: int, k: nat)
    requires Classifies(cl, order) && k <= |lines|
    requires forall n :: 1 <= n <= k ==> EditFor(cl, order, n, d).Success?
    ensures RewriteUpTo(lines, cl, order, d, k) == Success(Render(lines[..k], EditsUpTo(cl, order, d, k)))
  {
    var rs := Outcomes(cl, order, d, |lines|);
    RenderUpToRender(lines, rs, k);
    var es := Values(rs, k);
    var es' := EditsUpTo(cl, order, d, k);
    forall i | 0 <= i < k ensures es[i] == es'[i] {
      assert Success(es[i]) == rs[i] == EditFor(cl, order, i + 1, d) == Success(es'[i]);
    }
    assert es == es';
  }

  /** A failing pass over lines 1..k raises the exception of the first line whose handler raises. */
  lemma RewriteUpToFirstError(lines: seq<string>, cl: map<string, Classified>, order: seq<string>, d: int, k: nat)
    requires Classifies(cl, order) && k <= |lines|
    requires RewriteUpTo(lines, cl, order, d, k).Failure?
    ensures exists n :: && 1 <= n <= k
                        && EditFor(cl, order, n, d) == Failure(RewriteUpTo(lines, cl, order, d, k).error)
                        && forall m :: 1 <= m < n ==> EditFor(cl, order, m, d).Success?
  {
    var rs := Outcomes(cl, order, d, |lines|);
    RenderUpToFirstError(lines, rs, k);
    var i :| && 0 <= i < k
             && rs[i] == Failure(RenderUpTo(lines, rs, k).error)
             && forall j :: 0 <= j < i ==> rs[j].Success?;
    forall m | 1 <= m < i + 1 ensures EditFor(cl, order, m, d).Success? {
      assert rs[m - 1].Success?;
    }
    assert EditFor(cl, order, i + 1, d) == Failure(RewriteUpTo(lines, cl, order, d, k).error);
  }


  /**
   * The pass succeeds exactly when no line's handler raises; the file it
   * writes is then the rendering of every line with its edit; otherwise the
   * exception is that of the first line whose handler raised.
   */
  lemma RewriteUpToMeaning(lines: seq<string>, cl: map<string, Classified>, order: seq<string>, d: int, k: nat)
    requires Classifies(cl, order) && k <= |lines|
    ensures RewriteUpTo(lines, cl, order, d, k).Success? <==>
      forall n :: 1 <= n <= k ==> EditFor(cl, order, n, d).Success?
    ensures RewriteUpTo(lines, cl, order, d, k).Success? ==>
      RewriteUpTo(lines, cl, order, d, k).value == Render(lines[..k], EditsUpTo(cl, order, d, k))
    ensures RewriteUpTo(lines, cl, order, d, k).Failure? ==>
      exists n :: 1 <= n <= k && EditFor(cl, order, n, d) == Failure(RewriteUpTo(lines, cl, order, d, k).error)
        && forall m :: 1 <= m < n ==> EditFor(cl, order, m, d).Success?
  {
    RewriteUpToSucceeds(lines, cl, order, d, k);
    if RewriteUpTo(lines, cl, order, d, k).Success? {
      RewriteUpToRender(lines, cl, order, d, k);
    } else {
      RewriteUpToFirstError(lines, cl, order, d, k);
    }
  }

  /** Over the whole file: when no handler raises, the output is every line rendered with its edit. */
  lemma RewriteSpecRender(lines: seq<string>, cl: map<string, Classified>, order: seq<string>, d: int)
    requires Classifies(cl, order)
    requires forall n :: 1 <= n <= |lines| ==> EditFor(cl, order, n, d).Success?
    ensures RewriteSpec(lines, cl, order, d) == Success(Render(lines, EditsUpTo(cl, order, d, |lines|)))
  {
    RewriteUpToRender(lines, cl, order, d, |lines|);
    assert lines[..|lines|] == lines;
  }

  /** Number of lines whose edit inserts a command. */
  function Insertions(es: seq<Edit>): nat
    decreases |es|
  {
    if es == [] then 0
    else Insertions(es[..|es| - 1]) + (if es[|es| - 1].action == 1 || es[|es| - 1].action == -1 then 1 else 0)
  }

  /** The output has one chunk per line plus one per insertion. */
  lemma {:induction false} RenderLength(lines: seq<string>, es: seq<Edit>)
    requires |lines| == |es| && forall i :: 0 <= i < |es| ==> ValidAction(es[i].action)
    ensures |Render(lines, es)| == |lines| + Insertions(es)
    decreases |lines|
  {
    if lines != [] {
      RenderLength(lines[..|lines| - 1], es[..|es| - 1]);
    }
  }

  /** Where the chunks of line i + 1 start: after every earlier line and every earlier insertion. */
  function Offset(es: seq<Edit>, i: nat): nat
    requires i <= |es|
  {
    i + Insertions(es[..i])
  }

  /**
   * Every line is written once, in order: verbatim, or behind ";" when it is
   * commented out, at its offset, with an inserted command right after it
   * (action 1) or right before it (action -1).
   */
  lemma {:induction false} RenderBlock(lines: seq<string>, es: seq<Edit>, i: nat)
    requires |lines| == |es| && forall h :: 0 <= h < |es| ==> ValidAction(es[h].action)
    requires i < |lines|
    ensures Render(lines[..i + 1], es[..i + 1]) == Render(lines[..i], es[..i]) + Emit(lines[i], es[i])
    ensures |Render(lines[..i], es[..i])| == Offset(es, i)
    ensures Render(lines[..i + 1], es[..i + 1]) <= Render(lines, es)
  {
    assert lines[..i + 1][..i] == lines[..i];
    assert es[..i + 1][..i] == es[..i];
    RenderLength(lines[..i], es[..i]);
    RenderPrefix(lines, es, i + 1);
  }

  lemma {:induction false} RenderPrefix(lines: seq<string>, es: seq<Edit>, k: nat)
    requires |lines| == |es| && k <= |lines|
    ensures Render(lines[..k], es[..k]) <= Render(lines, es)
    decreases |lines| - k
  {
    if k < |lines| {
      RenderPrefix(lines, es, k + 1);
      assert lines[..k + 1][..k] == lines[..k];
      assert es[..k + 1][..k] == es[..k];
    } else {
      assert lines[..k] == lines && es[..k] == es;
    }
  }

  lemma RenderAt(lines: seq<string>, es: seq<Edit>, i: nat)
    requires |lines| == |es| && forall h :: 0 <= h < |es| ==> ValidAction(es[h].action)
    requires i < |lines|
    ensures var out := Render(lines, es); var o := Offset(es, i);
      match es[i].action
      case 0 => o < |out| && out[o] == lines[i]
      case -9 => o < |out| && out[o] == ";" + lines[i]
      case 1 => o + 1 < |out| && out[o] == lines[i] && out[o + 1] == InsertedLine(es[i])
      case _ => o + 1 < |out| && out[o] == InsertedLine(es[i]) && out[o + 1] == lines[i]
  {
    RenderBlock(lines, es, i);
    var out := Render(lines, es);
    var pre := Render(lines[..i], es[..i]);
    var blk := Emit(lines[i], es[i]);
    assert out[..|pre| + |blk|] == pre + blk;
  }
}
