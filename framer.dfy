/** Line framing of the notification stream (`handleNotify`, app.js:46-55):
    each notification's text is appended to the pending buffer, and when the
    buffer holds a line feed it is cut at every line feed; the last piece stays
    pending and every other piece is a complete line. */
module Framer {
  import opened JsText

  /** The complete lines one notification yields, in order, and the text left
      pending after it. */
  datatype Framed = Framed(lines: seq<string>, rest: string)

  /** The effect of one notification on the pending buffer. When the buffer
      holds no line feed, `split` gives one piece, so the source's
      `includes('\n')` test does not change the result (see `FrameNoNewline`). */
  function Frame(pending: string, chunk: string): (r: Framed)
    ensures '\n' !in r.rest && NewlineFree(r.lines)
    ensures r.lines == [] <==> '\n' !in pending + chunk
  {
    var pieces := Split(pending + chunk, '\n');
    Framed(pieces[..|pieces| - 1], pieces[|pieces| - 1])
  }

  /** Each line followed by its line feed, all concatenated. */
  function Terminated(lines: seq<string>): string
    decreases |lines|
  {
    if lines == [] then "" else lines[0] + "\n" + Terminated(lines[1..])
  }

  /** The messages handed on: one per complete line, in order, each its line
      with the surrounding white space removed, so none starts or ends with
      white space. */
  function Messages(f: Framed): (msgs: seq<string>)
    ensures |msgs| == |f.lines|
    ensures forall i :: 0 <= i < |msgs| ==> msgs[i] == [] || (!IsSpace(msgs[i][0]) && !IsSpace(msgs[i][|msgs[i]| - 1]))
  {
    seq(|f.lines|, i requires 0 <= i < |f.lines| => Trim(f.lines[i]))
  }

  /** Message `i` is line `i` with its surrounding white space removed and
      nothing else. */
  lemma MessagesAreTrims(f: Framed)
    ensures |Messages(f)| == |f.lines|
    ensures forall i :: 0 <= i < |f.lines| ==> TrimOfAt(f.lines[i], Messages(f)[i], LeadingSpace(f.lines[i]))
  {
    forall i | 0 <= i < |f.lines|
      ensures TrimOfAt(f.lines[i], Messages(f)[i], LeadingSpace(f.lines[i]))
    {
      assert Messages(f)[i] == Trim(f.lines[i]);
      TrimRemovesOnlySpace(f.lines[i]);
    }
  }

  predicate NewlineFree(lines: seq<string>) {
    forall i :: 0 <= i < |lines| ==> '\n' !in lines[i]
  }

  lemma {:induction false} TerminatedAppend(a: seq<string>, b: seq<string>)
    ensures Terminated(a + b) == Terminated(a) + Terminated(b)
    decreases |a|
  {
    if a == [] {
      assert a + b == b;
    } else {
      assert (a + b)[1..] == a[1..] + b;
      TerminatedAppend(a[1..], b);
    }
  }

  lemma {:induction false} JoinIsTerminated(pieces: seq<string>)
    requires |pieces| >= 1
    ensures Join(pieces, '\n') == Terminated(pieces[..|pieces| - 1]) + pieces[|pieces| - 1]
    decreases |pieces|
  {
    if |pieces| > 1 {
      JoinIsTerminated(pieces[1..]);
      assert pieces[1..][..|pieces| - 2] == pieces[..|pieces| - 1][1..];
    }
  }

  /** Text made of newline-free lines, each with its line feed, and a
      newline-free tail splits back into exactly those lines and that tail. */
  lemma SplitTerminated(lines: seq<string>, rest: string)
    requires NewlineFree(lines) && '\n' !in rest
    ensures Split(Terminated(lines) + rest, '\n') == lines + [rest]
  {
    var pieces := lines + [rest];
    assert pieces[..|pieces| - 1] == lines;
    JoinIsTerminated(pieces);
    SplitJoin(pieces, '\n');
  }

  /** No data is lost: the old buffer and the chunk are exactly the emitted
      lines, each with its line feed, followed by the new buffer; neither the
      lines nor the new buffer hold a line feed. */
  lemma FrameLosesNothing(pending: string, chunk: string)
    ensures var f := Frame(pending, chunk);
      pending + chunk == Terminated(f.lines) + f.rest
    ensures var f := Frame(pending, chunk); '\n' !in f.rest && NewlineFree(f.lines)
  {
    var pieces := Split(pending + chunk, '\n');
    JoinSplit(pending + chunk, '\n');
    JoinIsTerminated(pieces);
  }

  /** A notification that brings no line feed into a buffer without one
      emits nothing and only grows the buffer. */
  lemma FrameNoNewline(pending: string, chunk: string)
    requires '\n' !in pending + chunk
    ensures Frame(pending, chunk) == Framed([], pending + chunk)
  {
    SplitNoSeparator(pending + chunk, '\n');
  }

  /** The framing of a text is unique: whenever the buffer and the chunk are
      newline-free lines, each with its line feed, and a newline-free tail,
      those are the lines emitted and the tail is the new buffer. */
  lemma FrameUnique(pending: string, chunk: string, lines: seq<string>, rest: string)
    requires NewlineFree(lines) && '\n' !in rest
    requires pending + chunk == Terminated(lines) + rest
    ensures Frame(pending, chunk) == Framed(lines, rest)
  {
    SplitTerminated(lines, rest);
    var pieces := lines + [rest];
    assert pieces[..|pieces| - 1] == lines;
  }

  lemma Regroup(p: string, a: string, b: string, t1: string, r1: string, t2: string, r2: string)
    requires p + a == t1 + r1 && r1 + b == t2 + r2
    ensures p + (a + b) == (t1 + t2) + r2
  {
    assert p + (a + b) == (t1 + r1) + b;
    assert (t1 + r1) + b == t1 + (t2 + r2);
  }

  /** Fragmentation invariance: delivering `a` and then `b` emits the same
      lines, in the same order, and leaves the same buffer as delivering
      `a + b` at once. */
  lemma FrameFragmentation(pending: string, a: string, b: string)
    ensures var f1 := Frame(pending, a);
      var f2 := Frame(f1.rest, b);
      Frame(pending, a + b) == Framed(f1.lines + f2.lines, f2.rest)
  {
    var f1 := Frame(pending, a);
    var f2 := Frame(f1.rest, b);
    FrameLosesNothing(pending, a);
    FrameLosesNothing(f1.rest, b);
    Regroup(pending, a, b, Terminated(f1.lines), f1.rest, Terminated(f2.lines), f2.rest);
    TerminatedAppend(f1.lines, f2.lines);
    assert NewlineFree(f1.lines + f2.lines);
    FrameUnique(pending, a + b, f1.lines + f2.lines, f2.rest);
  }

  /** Framing a sequence of notifications one after the other. */
  function FrameAll(pending: string, chunks: seq<string>): Framed
    decreases |chunks|
  {
    if chunks == [] then Framed([], pending)
    else
      var f := Frame(pending, chunks[0]);
      var g := FrameAll(f.rest, chunks[1..]);
      Framed(f.lines + g.lines, g.rest)
  }

  function Concat(chunks: seq<string>): string
    decreases |chunks|
  {
    if chunks == [] then "" else chunks[0] + Concat(chunks[1..])
  }

  /** However a stream is cut into (at least one) notifications, framing the
      pieces one by one emits the same lines and leaves the same buffer as
      framing the whole stream. */
  lemma {:induction false} FrameAllIsFrame(pending: string, chunks: seq<string>)
    requires chunks != []
    ensures FrameAll(pending, chunks) == Frame(pending, Concat(chunks))
    decreases |chunks|
  {
    var f := Frame(pending, chunks[0]);
    if chunks[1..] == [] {
      assert Concat(chunks) == chunks[0] + "";
      assert chunks[0] + "" == chunks[0];
      assert f.lines + [] == f.lines;
    } else {
      FrameAllIsFrame(f.rest, chunks[1..]);
      FrameFragmentation(pending, chunks[0], Concat(chunks[1..]));
    }
  }
}
