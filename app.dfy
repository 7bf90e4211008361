/** The console page's mutable state and its handlers, as app.js keeps them in
    the closure of its `DOMContentLoaded` listener: the pending notification
    text `bleBuffer` (app.js:8), and `state.boards` with
    `state.selectedBoardId` (app.js:10-13). Every handler is proved against
    the functions of the modules it imports. A handler returns `false` when
    the source would throw a TypeError out of it. */
module App {
  import opened JsText
  import opened Framer
  import opened Protocol
  import opened Boards
  import opened Engine

  class Console {
    var buffer: string
    var boards: map<int, Board>
    var selectedBoardId: int

    /** The whole state as a value. */
    function State(): Snapshot
      reads this
    {
      Snapshot(buffer, boards, selectedBoardId)
    }

    /** The state when the page has loaded: nothing pending, no boards,
        board 0 selected. */
    constructor ()
      ensures State() == Snapshot("", map[], 0)
    {
      buffer := "";
      boards := map[];
      selectedBoardId := 0;
    }

    /** `render()`, as far as it can fail: it reads the name of the selected
        board, which throws when that board does not exist. Its output to the
        page is not modelled. */
    method Render() returns (ok: bool)
      ensures ok <==> selectedBoardId in boards
    {
      ok := selectedBoardId in boards;
    }

    /** Creates board `i` with no channels and fills channels 1 .. 6 with
        "disarmed", one at a time (the inner loops of `initBoards`). */
    method AddBoard(i: int, name: string)
      modifies this
      ensures boards == old(boards)[i := Board(i, name, FreshChannels())]
      ensures buffer == old(buffer) && selectedBoardId == old(selectedBoardId)
    {
      boards := boards[i := Board(i, name, map[])];
      var j := 1;
      while j <= ChannelCount
        invariant 1 <= j <= ChannelCount + 1
        invariant boards == old(boards)[i := Board(i, name, ChannelsBelow(j))]
        invariant buffer == old(buffer) && selectedBoardId == old(selectedBoardId)
      {
        boards := boards[i := boards[i].(channels := boards[i].channels[Int(j) := Disarmed])];
        j := j + 1;
      }
    }

    /** `initBoards(count)`: throws the old boards away, creates the master
        unit and one auxiliary board per id 1 .. count, then renders. */
    method InitBoards(count: Num) returns (ok: bool)
      modifies this
      ensures boards == Resync(count)
      ensures ok <==> selectedBoardId in boards
      ensures buffer == old(buffer) && selectedBoardId == old(selectedBoardId)
    {
      boards := map[];
      AddBoard(0, MasterName);
      var i := 1;
      while count.Int? && i <= count.value
        invariant 1 <= i <= LastBoard(count) + 1
        invariant boards == BoardsBelow(i)
        invariant buffer == old(buffer) && selectedBoardId == old(selectedBoardId)
        decreases LastBoard(count) + 1 - i
      {
        AddBoard(i, AuxName(i));
        i := i + 1;
      }
      ok := Render();
    }

    /** `processMessage(msg)`: resyncs on a board count, writes one channel
        of a known board in place on a status line, and otherwise changes
        nothing; `ok` is false when it throws. */
    method ProcessMessage(msg: string) returns (ok: bool)
      modifies this
      ensures Outcome(boards, ok) == Step(old(boards), selectedBoardId, msg)
      ensures buffer == old(buffer) && selectedBoardId == old(selectedBoardId)
    {
      match Decode(msg)
      case BoardCount(n) =>
        ok := InitBoards(n);
      case ChannelStatus(b, c, status) =>
        if b.Int? && b.value in boards {
          var id := b.value;
          boards := boards[id := boards[id].(channels := boards[id].channels[c := status])];
          ok := Render();
        } else {
          ok := true;
        }
      case MissingStatus =>
        ok := false;
      case Unhandled =>
        ok := true;
    }

    /** `lines.forEach(line => processMessage(line.trim()))`: the lines in
        order, until one throws, which abandons the rest. */
    method ProcessLines(lines: seq<string>) returns (ok: bool)
      modifies this
      ensures Outcome(boards, ok) == RunLines(old(boards), selectedBoardId, Messages(Framed(lines, "")))
      ensures buffer == old(buffer) && selectedBoardId == old(selectedBoardId)
    {
      ghost var msgs := Messages(Framed(lines, ""));
      ok := true;
      var i := 0;
      while i < |lines| && ok
        invariant 0 <= i <= |lines|
        invariant buffer == old(buffer) && selectedBoardId == old(selectedBoardId)
        invariant ok ==> RunLines(old(boards), selectedBoardId, msgs) == RunLines(boards, selectedBoardId, msgs[i..])
        invariant !ok ==> RunLines(old(boards), selectedBoardId, msgs) == Outcome(boards, false)
        decreases |lines| - i
      {
        RunLinesFrom(boards, selectedBoardId, msgs, i);
        ok := ProcessMessage(Trim(lines[i]));
        i := i + 1;
      }
    }

    /** `handleNotify`: appends the notification's text to the buffer and,
        once the buffer holds a line feed, keeps the last piece pending and
        processes the trimmed complete lines in order until one throws. */
    method HandleNotify(chunk: string) returns (ok: bool)
      modifies this
      ensures Fed(State(), ok) == Feed(old(State()), chunk)
      ensures '\n' !in buffer
    {
      ghost var f := Frame(buffer, chunk);
      FrameLosesNothing(buffer, chunk);
      buffer := buffer + chunk;
      if '\n' in buffer {
        var pieces := Split(buffer, '\n');
        buffer := pieces[|pieces| - 1];
        assert Messages(Framed(pieces[..|pieces| - 1], "")) == Messages(f);
        ok := ProcessLines(pieces[..|pieces| - 1]);
      } else {
        FrameNoNewline(old(buffer), chunk);
        ok := true;
      }
    }

    /** `window.selectBoard(id)`: selects `id` as given, whether or not such a
        board exists, then renders, which throws when it does not. */
    method SelectBoard(id: int) returns (ok: bool)
      modifies this
      ensures selectedBoardId == id
      ensures boards == old(boards) && buffer == old(buffer)
      ensures ok <==> id in boards
    {
      selectedBoardId := id;
      ok := Render();
    }

    /** `window.sendAction(ch, action)` and `sendData`: the text handed to the
        encoder is `B<selected>_CH<ch>_<action>` and a line feed; when the
        action holds no `_`, a board splitting that line as `processMessage`
        does reads back the selected board, the channel and the action. */
    method SendAction(ch: Num, action: string) returns (payload: string)
      ensures payload == Payload(ActionLine(selectedBoardId, ch, action))
      ensures '_' !in action ==>
        var parts := Split(payload[..|payload| - 1], '_');
        && |parts| == 3
        && ParseInt(Drop(parts[0], 1)) == Int(selectedBoardId)
        && ParseInt(Drop(parts[1], 2)) == ch
        && parts[2] == action
    {
      var line := ActionLine(selectedBoardId, ch, action);
      payload := line + "\n";
      assert payload[..|payload| - 1] == line;
      if '_' !in action {
        ActionLineFields(selectedBoardId, ch, action);
      }
    }
  }
}
