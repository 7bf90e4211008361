/** One notification end to end (`handleNotify`, app.js:46-55): frame the
    chunk, trim every complete line and hand the lines to `processMessage` in
    order until one throws. */
module Engine {
  import opened JsText
  import opened Framer
  import opened Protocol
  import opened Boards

  /** The engine's whole state: the pending buffer, the board map and the
      selected board. */
  datatype Snapshot = Snapshot(buffer: string, boards: map<int, Board>, selected: int)

  /** The state after a notification, and whether its lines all ran without
      an exception. */
  datatype Fed = Fed(after: Snapshot, ok: bool)

  /** `handleNotify` as written: an exception in one line abandons the rest
      of the notification's lines, but the buffer was already updated. */
  function Feed(s: Snapshot, chunk: string): (r: Fed)
    ensures '\n' !in r.after.buffer && r.after.selected == s.selected
    ensures |r.after.buffer| <= |s.buffer| + |chunk|
    ensures '\n' in s.buffer + chunk ==> |r.after.buffer| < |s.buffer| + |chunk|
    ensures (forall i :: 0 <= i < |Messages(Frame(s.buffer, chunk))| ==> Decode(Messages(Frame(s.buffer, chunk))[i]).Unhandled?) ==>
      r.ok && r.after.boards == s.boards
  {
    FrameLosesNothing(s.buffer, chunk);
    var f := Frame(s.buffer, chunk);
    var o := RunLines(s.boards, s.selected, Messages(f));
    Fed(Snapshot(f.rest, o.boards, s.selected), o.ok)
  }

  /** `handleNotify` as evidently intended: a line that throws is skipped. */
  function FeedAll(s: Snapshot, chunk: string): Snapshot {
    var f := Frame(s.buffer, chunk);
    Snapshot(f.rest, RunAll(s.boards, s.selected, Messages(f)), s.selected)
  }

  lemma MessagesAppend(a: seq<string>, b: seq<string>, r1: string, r2: string, r: string)
    ensures Messages(Framed(a + b, r)) == Messages(Framed(a, r1)) + Messages(Framed(b, r2))
  {
    var m, m1, m2 := Messages(Framed(a + b, r)), Messages(Framed(a, r1)), Messages(Framed(b, r2));
    assert |m| == |m1 + m2|;
    forall i | 0 <= i < |m| ensures m[i] == (m1 + m2)[i] {
      if i < |a| {
        calc {
          m[i];
          Trim((a + b)[i]);
          { assert (a + b)[i] == a[i]; }
          Trim(a[i]);
          m1[i];
        }
      } else {
        calc {
          m[i];
          Trim((a + b)[i]);
          { assert (a + b)[i] == b[i - |a|]; }
          Trim(b[i - |a|]);
          m2[i - |a|];
        }
      }
    }
  }

  /** A notification never leaves a line feed pending and never changes the
      selection; the pending text and the chunk are the lines it handled,
      each with its line feed, followed by the new buffer. */
  lemma FeedBuffer(s: Snapshot, chunk: string)
    ensures var after := Feed(s, chunk).after;
      '\n' !in after.buffer && after.selected == s.selected
      && s.buffer + chunk == Terminated(Frame(s.buffer, chunk).lines) + after.buffer
  {
    FrameLosesNothing(s.buffer, chunk);
  }

  /** A chunk without a line feed, arriving on a buffer without one, only
      grows the buffer. */
  lemma FeedNoNewline(s: Snapshot, chunk: string)
    requires '\n' !in s.buffer + chunk
    ensures Feed(s, chunk) == Fed(Snapshot(s.buffer + chunk, s.boards, s.selected), true)
  {
    FrameNoNewline(s.buffer, chunk);
  }

  /** Fragmentation invariance of the code as written, which holds as long as
      no line of the first part throws: two notifications `a` and `b` leave
      the same buffer and boards as one notification `a + b`. */
  lemma FeedFragmentation(s: Snapshot, a: string, b: string)
    requires Feed(s, a).ok
    ensures Feed(Feed(s, a).after, b) == Feed(s, a + b)
  {
    var f1 := Frame(s.buffer, a);
    var f2 := Frame(f1.rest, b);
    FrameFragmentation(s.buffer, a, b);
    MessagesAppend(f1.lines, f2.lines, f1.rest, f2.rest, f2.rest);
    RunLinesAppend(s.boards, s.selected, Messages(f1), Messages(f2));
  }

  /** Fragmentation invariance of the intended handling, with no condition. */
  lemma FeedAllFragmentation(s: Snapshot, a: string, b: string)
    ensures FeedAll(FeedAll(s, a), b) == FeedAll(s, a + b)
  {
    var f1 := Frame(s.buffer, a);
    var f2 := Frame(f1.rest, b);
    FrameFragmentation(s.buffer, a, b);
    MessagesAppend(f1.lines, f2.lines, f1.rest, f2.rest, f2.rest);
    RunAllAppend(s.boards, s.selected, Messages(f1), Messages(f2));
  }

  /** The two handlings agree on every notification none of whose lines
      throws. */
  lemma FeedIsFeedAll(s: Snapshot, chunk: string)
    requires Feed(s, chunk).ok
    ensures Feed(s, chunk).after == FeedAll(s, chunk)
  {
    RunLinesIsRunAll(s.boards, s.selected, Messages(Frame(s.buffer, chunk)));
  }

  /** A status line with no third `_` field: `parts[2]` is undefined. */
  const TruncatedLine := "X_ARMED"

  /** `X_ARMED` is one line that trims to itself and throws. */
  lemma TruncatedLineShape()
    ensures var x := TruncatedLine;
      && '\n' !in x && x != [] && !IsSpace(x[0]) && !IsSpace(x[|x| - 1])
      && Decode(x).MissingStatus?
  {
    var x := TruncatedLine;
    assert x != [] && !IsSpace(x[0]) && !IsSpace(x[|x| - 1]) by {
      assert x[0] == 'X' && x[|x| - 1] == 'D';
    }
    assert Decode(x).MissingStatus? by {
      DecodeTruncatedLine();
    }
  }

  lemma DecodeTruncatedLine()
    ensures Decode(TruncatedLine) == MissingStatus
  {
    var line := TruncatedLine;
    assert line == "X" + ArmedToken;
    assert line[0] == 'X';
    assert !(BoardsPrefix <= line);
    ContainsSuffix("X", ArmedToken);
    assert line == "X" + ['_'] + "ARMED";
    SplitFirstPiece("X", '_', "ARMED");
    SplitNoSeparator("ARMED", '_');
  }

  /** Board `b` exists and its channel `c` holds `status`. */
  predicate ChannelIs(boards: map<int, Board>, b: int, c: int, status: string) {
    b in boards && Int(c) in boards[b].channels && boards[b].channels[Int(c)] == status
  }

  /** The state the counterexample starts from: after `BOARDS:0`, board 0
      selected, nothing pending. */
  function MasterOnly(): Snapshot {
    Snapshot("", Resync(Int(0)), 0)
  }

  /** Sending `line` on the wire, framed from an empty buffer, hands
      `processMessage` exactly `line`. */
  lemma OneLine(line: string)
    requires '\n' !in line && line != [] && !IsSpace(line[0]) && !IsSpace(line[|line| - 1])
    ensures Frame("", Payload(line)) == Framed([line], "")
    ensures Messages(Framed([line], "")) == [line]
  {
    PayloadFrames(line);
  }

  /** On an empty buffer, a notification carrying one line that trims to
      itself runs exactly that line. */
  lemma FeedOneLine(s: Snapshot, line: string)
    requires s.buffer == ""
    requires '\n' !in line && line != [] && !IsSpace(line[0]) && !IsSpace(line[|line| - 1])
    ensures var o := Step(s.boards, s.selected, line);
      Feed(s, Payload(line)) == Fed(Snapshot("", o.boards, s.selected), o.ok)
  {
    OneLine(line);
    var o := Step(s.boards, s.selected, line);
    assert [line][1..] == [];
    assert RunLines(s.boards, s.selected, [line]) == o;
  }

  /** On an empty buffer, the notification `X_ARMED\n` throws and changes
      nothing. */
  lemma TruncatedNotificationThrows(s: Snapshot)
    requires s.buffer == ""
    ensures Feed(s, Payload(TruncatedLine)) == Fed(s, false)
  {
    TruncatedLineShape();
    FeedOneLine(s, TruncatedLine);
  }

  /** On an empty buffer, a status notification for a known board sets that
      channel, and completes when the selected board exists. */
  lemma StatusNotificationSets(s: Snapshot, b: int, c: int, armed: bool)
    requires s.buffer == "" && b in s.boards
    ensures Feed(s, Payload(StatusLine(b, c, armed)))
      == Fed(Snapshot("", SetChannel(s.boards, b, Int(c), StatusText(armed)), s.selected), s.selected in s.boards)
  {
    var y := StatusLine(b, c, armed);
    assert y[0] == 'B' && y[|y| - 1] == 'D';
    IntToStringFree(b, '\n');
    IntToStringFree(c, '\n');
    FeedOneLine(s, y);
    StepStatusLine(s.boards, s.selected, b, c, armed);
  }

  /** On an empty buffer, a notification carrying one line runs that line
      with its surrounding white space removed. */
  lemma FeedOneRawLine(s: Snapshot, raw: string)
    requires s.buffer == "" && '\n' !in raw
    ensures var o := Step(s.boards, s.selected, Trim(raw));
      Feed(s, Payload(raw)) == Fed(Snapshot("", o.boards, s.selected), o.ok)
  {
    PayloadFrames(raw);
    var msgs := Messages(Framed([raw], ""));
    assert msgs == [Trim(raw)];
    assert msgs[1..] == [];
  }

  /** A line that arrives with a CRLF line end has the same effect as the
      bare line: `trim` removes the carriage return. */
  lemma CrlfLine(s: Snapshot, y: string)
    requires s.buffer == ""
    requires '\n' !in y && y != [] && !IsSpace(y[0]) && !IsSpace(y[|y| - 1])
    ensures Feed(s, Payload(y + "\r")) == Feed(s, Payload(y))
  {
    assert '\n' !in y + "\r";
    TrimTrailingSpace(y, "\r");
    FeedOneRawLine(s, y + "\r");
    FeedOneLine(s, y);
  }

  /** A status line ending in CRLF, such as `B0_CH1_ARMED\r\n`, sets its
      channel. */
  lemma CrlfStatusNotificationSets(s: Snapshot, b: int, c: int, armed: bool)
    requires s.buffer == "" && b in s.boards
    ensures Feed(s, Payload(StatusLine(b, c, armed) + "\r"))
      == Fed(Snapshot("", SetChannel(s.boards, b, Int(c), StatusText(armed)), s.selected), s.selected in s.boards)
  {
    var y := StatusLine(b, c, armed);
    assert '\n' !in y && y != [] && !IsSpace(y[0]) && !IsSpace(y[|y| - 1]) by {
      assert y[0] == 'B' && y[|y| - 1] == 'D';
      IntToStringFree(b, '\n');
      IntToStringFree(c, '\n');
    }
    CrlfLine(s, y);
    StatusNotificationSets(s, b, c, armed);
  }

  /** Two lines, each with its line feed, framed from an empty buffer. */
  lemma TwoLines(x: string, y: string)
    requires '\n' !in x && '\n' !in y
    ensures Frame("", Payload(x) + Payload(y)) == Framed([x, y], "")
  {
    assert [x, y][1..] == [y];
    assert Terminated([y]) == y + "\n";
    assert "" + (Payload(x) + Payload(y)) == Terminated([x, y]) + "";
    assert NewlineFree([x, y]);
    FrameUnique("", Payload(x) + Payload(y), [x, y], "");
  }

  /** On an empty buffer, `X_ARMED\n` followed by any line in the same
      notification throws before that line is looked at. */
  lemma JoinedNotificationStops(s: Snapshot, y: string)
    requires s.buffer == "" && '\n' !in y
    ensures Feed(s, Payload(TruncatedLine) + Payload(y)) == Fed(s, false)
  {
    TruncatedLineShape();
    FirstLineStops(s, TruncatedLine, y);
  }

  /** On an empty buffer, a notification whose first line throws in
      `processMessage` changes nothing, whatever line follows it. */
  lemma FirstLineStops(s: Snapshot, x: string, y: string)
    requires s.buffer == "" && '\n' !in x && '\n' !in y
    requires x != [] && !IsSpace(x[0]) && !IsSpace(x[|x| - 1]) && Decode(x).MissingStatus?
    ensures Feed(s, Payload(x) + Payload(y)) == Fed(s, false)
  {
    TwoLines(x, y);
    var msgs := Messages(Framed([x, y], ""));
    assert msgs[0] == x;
    assert RunLines(s.boards, s.selected, msgs) == Outcome(s.boards, false);
  }

  /** Delivered as two notifications, `X_ARMED\n` throws and the status
      line after it still arms the channel. */
  lemma SeparateNotificationsArm(s: Snapshot, b: int, c: int)
    requires s.buffer == "" && b in s.boards
    ensures !Feed(s, Payload(TruncatedLine)).ok
    ensures ChannelIs(Feed(Feed(s, Payload(TruncatedLine)).after, Payload(StatusLine(b, c, true))).after.boards, b, c, "armed")
  {
    TruncatedNotificationThrows(s);
    StatusNotificationSets(s, b, c, true);
  }

  /** Delivered as one notification, the status line after `X_ARMED` is
      never applied. */
  lemma JoinedNotificationKeeps(s: Snapshot, b: int, c: int, status: string)
    requires s.buffer == "" && ChannelIs(s.boards, b, c, status)
    ensures ChannelIs(Feed(s, Payload(TruncatedLine) + Payload(StatusLine(b, c, true))).after.boards, b, c, status)
  {
    IntToStringFree(b, '\n');
    IntToStringFree(c, '\n');
    JoinedNotificationStops(s, StatusLine(b, c, true));
  }

  /** The code as written is not invariant under fragmentation: a line that
      throws abandons the lines after it in the same notification. With a
      disarmed channel `c` on board `b` and nothing pending,
      `X_ARMED\nB<b>_CH<c>_ARMED\n` leaves the channel disarmed when it
      arrives as one notification and arms it when it arrives as two. */
  lemma AbortDependsOnFragmentation(s: Snapshot, b: int, c: int)
    requires s.buffer == "" && ChannelIs(s.boards, b, c, Disarmed)
    ensures var first, second := Payload(TruncatedLine), Payload(StatusLine(b, c, true));
      && !Feed(s, first).ok
      && ChannelIs(Feed(Feed(s, first).after, second).after.boards, b, c, "armed")
      && ChannelIs(Feed(s, first + second).after.boards, b, c, Disarmed)
  {
    SeparateNotificationsArm(s, b, c);
    JoinedNotificationKeeps(s, b, c, Disarmed);
  }

  /** The state after `BOARDS:0` with nothing pending meets the conditions
      of the counterexample for board 0, channel 1. */
  lemma MasterOnlyFits()
    ensures MasterOnly().buffer == "" && ChannelIs(MasterOnly().boards, 0, 1, Disarmed)
  {
    ResyncShape(Int(0));
    FreshChannelsShape();
  }
}
