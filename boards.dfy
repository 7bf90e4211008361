/** The console's picture of the relay boards and what one inbound message
    does to it: the resync of `initBoards` (app.js:73-82), the channel write
    of `processMessage` (app.js:61-69), and the TypeErrors that stop a
    message half way (app.js:65, and `render`'s lookup of the selected board,
    app.js:86-87). */
module Boards {
  import opened JsText
  import opened Protocol

  /** One board as `initBoards` builds it. Channel keys are the Numbers
      `parseInt` produced (NaN included, which JavaScript stores under the key
      "NaN"); the board map is keyed by integers, so a NaN board id finds no
      board. */
  datatype Board = Board(id: int, name: string, channels: map<Num, string>)

  const MasterName := "Master Unit"
  const Disarmed := "disarmed"
  const ChannelCount := 6

  /** `Aux Board ${i}` */
  function AuxName(i: int): string {
    "Aux Board " + IntToString(i)
  }

  function BoardName(i: int): string {
    if i == 0 then MasterName else AuxName(i)
  }

  /** Channels 1 .. j-1, all disarmed: what the fill loop has written before
      it reaches channel j. */
  function ChannelsBelow(j: int): map<Num, string>
    decreases j
  {
    if j <= 1 then map[] else ChannelsBelow(j - 1)[Int(j - 1) := Disarmed]
  }

  /** The channels of a board right after a resync. */
  function FreshChannels(): map<Num, string> {
    ChannelsBelow(ChannelCount + 1)
  }

  function NewBoard(i: int): Board {
    Board(i, BoardName(i), FreshChannels())
  }

  /** The last board id `for (let i = 1; i <= count; i++)` creates; the loop
      runs for no `i` when `count` is NaN or below 1. */
  function LastBoard(count: Num): nat {
    if count.Int? && count.value >= 1 then count.value else 0
  }

  /** Boards 0 .. i-1, each as a resync creates it. */
  function BoardsBelow(i: int): map<int, Board>
    decreases i
  {
    if i <= 0 then map[] else BoardsBelow(i - 1)[i - 1 := NewBoard(i - 1)]
  }

  /** The whole board map after `initBoards(count)`: boards 0 .. count, the
      master unit always among them with fresh channels. */
  function Resync(count: Num): (r: map<int, Board>)
    ensures forall k :: k in r <==> 0 <= k <= LastBoard(count)
    ensures 0 in r && r[0].id == 0 && r[0].name == MasterName && r[0].channels == FreshChannels()
  {
    BoardsBelowShape(LastBoard(count) + 1);
    BoardsBelow(LastBoard(count) + 1)
  }

  lemma {:induction false} ChannelsBelowShape(j: int)
    ensures forall k :: k in ChannelsBelow(j) <==> k.Int? && 1 <= k.value < j
    ensures forall k :: k in ChannelsBelow(j) ==> ChannelsBelow(j)[k] == Disarmed
    decreases j
  {
    if j > 1 {
      ChannelsBelowShape(j - 1);
    }
  }

  /** A fresh board has exactly the channels 1 .. 6, every one disarmed. */
  lemma FreshChannelsShape()
    ensures forall k :: k in FreshChannels() <==> k.Int? && 1 <= k.value <= ChannelCount
    ensures forall k :: k in FreshChannels() ==> FreshChannels()[k] == Disarmed
  {
    ChannelsBelowShape(ChannelCount + 1);
  }

  lemma {:induction false} BoardsBelowShape(i: int)
    ensures forall k :: k in BoardsBelow(i) <==> 0 <= k < i
    ensures forall k :: k in BoardsBelow(i) ==> BoardsBelow(i)[k] == NewBoard(k)
    decreases i
  {
    if i > 0 {
      BoardsBelowShape(i - 1);
    }
  }

  /** A resync leaves exactly the boards 0 .. count (only board 0 when the
      count is NaN or below 1), each under its own id, named "Master Unit"
      or "Aux Board <id>", with fresh channels; nothing of the boards before
      it survives, since the result depends on the count alone. */
  lemma ResyncShape(count: Num)
    ensures forall k :: k in Resync(count) <==> 0 <= k <= LastBoard(count)
    ensures forall k :: k in Resync(count) ==>
      && Resync(count)[k].id == k
      && Resync(count)[k].name == BoardName(k)
      && Resync(count)[k].channels == FreshChannels()
    ensures (count.NaN? || count.value < 1) ==> Resync(count).Keys == {0}
    ensures count.Int? && count.value >= 1 ==> LastBoard(count) == count.value
  {
    BoardsBelowShape(LastBoard(count) + 1);
  }

  /** The outcome of one message: the board map after it and whether it
      completed (false: a TypeError was thrown after any change it made). */
  datatype Outcome = Outcome(boards: map<int, Board>, ok: bool)

  /** `state.boards[b].channels[c] = status` on a board that exists: that one
      channel takes the status (and is added if it was not there); nothing
      else changes. */
  function SetChannel(boards: map<int, Board>, b: int, c: Num, status: string): (r: map<int, Board>)
    requires b in boards
    ensures r.Keys == boards.Keys
    ensures forall k :: k in boards && k != b ==> r[k] == boards[k]
    ensures r[b].id == boards[b].id && r[b].name == boards[b].name
    ensures r[b].channels.Keys == boards[b].channels.Keys + {c}
    ensures r[b].channels[c] == status
    ensures forall k :: k in boards[b].channels && k != c ==> r[b].channels[k] == boards[b].channels[k]
  {
    boards[b := boards[b].(channels := boards[b].channels[c := status])]
  }

  /** `processMessage(msg)`, the `render()` call included: a resync and a
      channel write complete only if the selected board exists afterwards, a
      status line without a third field throws before changing anything, and
      any other line, or a status for an unknown board, changes nothing. */
  function Step(boards: map<int, Board>, selected: int, msg: string): (o: Outcome)
    ensures Decode(msg).MissingStatus? ==> o == Outcome(boards, false)
    ensures Decode(msg).Unhandled? ==> o == Outcome(boards, true)
    ensures !o.ok ==> Decode(msg).MissingStatus? || selected !in o.boards
    ensures Decode(msg).BoardCount? ==> 0 in o.boards
    ensures !Decode(msg).BoardCount? ==> o.boards.Keys == boards.Keys
    ensures !Decode(msg).BoardCount? ==> forall k :: k in boards ==>
      o.boards[k].id == boards[k].id && o.boards[k].name == boards[k].name
    ensures Decode(msg).ChannelStatus? ==> forall k :: k in boards && Int(k) != Decode(msg).board ==>
      o.boards[k] == boards[k]
  {
    match Decode(msg)
    case BoardCount(n) =>
      var after := Resync(n);
      Outcome(after, selected in after)
    case ChannelStatus(b, c, status) =>
      if b.Int? && b.value in boards then
        var after := SetChannel(boards, b.value, c, status);
        Outcome(after, selected in after)
      else Outcome(boards, true)
    case MissingStatus => Outcome(boards, false)
    case Unhandled => Outcome(boards, true)
  }

  /** A well-formed status line for a known board sets exactly that channel
      to "armed" or "disarmed"; for an unknown board it changes nothing. */
  lemma StepStatusLine(boards: map<int, Board>, selected: int, b: int, c: int, armed: bool)
    ensures b in boards ==>
      Step(boards, selected, StatusLine(b, c, armed))
        == Outcome(SetChannel(boards, b, Int(c), StatusText(armed)), selected in boards)
    ensures b !in boards ==> Step(boards, selected, StatusLine(b, c, armed)) == Outcome(boards, true)
  {
    DecodeStatusLine(b, c, armed);
  }

  /** A board-count line replaces the board map by the resync of its count. */
  lemma StepBoardsLine(boards: map<int, Board>, selected: int, n: int)
    ensures Step(boards, selected, BoardsLine(n)) == Outcome(Resync(Int(n)), selected in Resync(Int(n)))
  {
    DecodeBoardsLine(n);
  }

  /** The console's own outbound lines, read back, change nothing. */
  lemma StepOutboundLines(boards: map<int, Board>, selected: int, ch: Num, arm: bool)
    ensures Step(boards, selected, ActionLine(selected, ch, ActionVerb(arm))) == Outcome(boards, true)
    ensures Step(boards, selected, SyncBoards) == Outcome(boards, true)
    ensures Step(boards, selected, SyncAll) == Outcome(boards, true)
  {
    ActionLineUnhandled(selected, ch, arm);
    SyncRequestsUnhandled();
  }

  /** A status for a board id that `parseInt` cannot read, or that names no
      board, changes nothing and throws nothing. */
  lemma StepUnknownBoard(boards: map<int, Board>, selected: int, msg: string)
    requires Decode(msg).ChannelStatus?
    requires Decode(msg).board.NaN? || Decode(msg).board.value !in boards
    ensures Step(boards, selected, msg) == Outcome(boards, true)
  {
  }

  /** `BX_CH<c>_ARMED` and `BX_CH<c>_DISARMED` are status lines whose board
      id is NaN: whatever the boards, they are ignored. */
  lemma StepNaNBoardLine(boards: map<int, Board>, selected: int, c: int, armed: bool)
    ensures var token := if armed then "ARMED" else "DISARMED";
      Step(boards, selected, Fields("BX", "CH" + IntToString(c), token)) == Outcome(boards, true)
  {
    var token := if armed then "ARMED" else "DISARMED";
    DecodeNaNBoardLine("X", c, armed);
    assert "B" + "X" == "BX";
    StepUnknownBoard(boards, selected, Fields("BX", "CH" + IntToString(c), token));
  }

  const DisconnectedWord := "DISCONNECTED"

  /** `B<b>_DISCONNECTED` */
  function DisconnectedLine(b: int): string {
    "B" + IntToString(b) + "_" + DisconnectedWord
  }

  /** A disconnect notice is not handled at all: it changes nothing. */
  lemma StepDisconnectedLine(boards: map<int, Board>, selected: int, b: int)
    ensures Step(boards, selected, DisconnectedLine(b)) == Outcome(boards, true)
  {
    IntToStringFree(b, '_');
    TaggedWordUnhandled(IntToString(b), DisconnectedWord);
  }

  /** The lines of one notification, in order, stopping at the first that
      throws: `lines.forEach(...)` is aborted by the exception. */
  function RunLines(boards: map<int, Board>, selected: int, msgs: seq<string>): (o: Outcome)
    ensures (forall i :: 0 <= i < |msgs| ==> Decode(msgs[i]).Unhandled?) ==> o == Outcome(boards, true)
    ensures (forall i :: 0 <= i < |msgs| ==> !Decode(msgs[i]).BoardCount?) ==> o.boards.Keys == boards.Keys
    ensures !o.ok ==> selected !in o.boards || exists i :: 0 <= i < |msgs| && Decode(msgs[i]).MissingStatus?
    decreases |msgs|
  {
    if msgs == [] then Outcome(boards, true)
    else
      var o := Step(boards, selected, msgs[0]);
      if !o.ok then o else RunLines(o.boards, selected, msgs[1..])
  }

  /** One step of a run from position `i`: the line there is applied, and
      the run goes on from `i + 1` only if it did not throw. */
  lemma RunLinesFrom(boards: map<int, Board>, selected: int, msgs: seq<string>, i: int)
    requires 0 <= i < |msgs|
    ensures var o := Step(boards, selected, msgs[i]);
      RunLines(boards, selected, msgs[i..]) == if o.ok then RunLines(o.boards, selected, msgs[i + 1..]) else o
  {
    assert msgs[i..][0] == msgs[i];
    assert msgs[i..][1..] == msgs[i + 1..];
  }

  /** Running two batches of lines back to back is running their
      concatenation, unless the first batch throws, which ends the run. */
  lemma {:induction false} RunLinesAppend(boards: map<int, Board>, selected: int, p: seq<string>, q: seq<string>)
    ensures var o := RunLines(boards, selected, p);
      RunLines(boards, selected, p + q) == if o.ok then RunLines(o.boards, selected, q) else o
    decreases |p|
  {
    if p == [] {
      assert p + q == q;
    } else {
      assert (p + q)[0] == p[0];
      assert (p + q)[1..] == p[1..] + q;
      var o := Step(boards, selected, p[0]);
      if o.ok {
        RunLinesAppend(o.boards, selected, p[1..], q);
      }
    }
  }

  /** A line that is not handled does not stop the lines around it, and
      leaves them the same effect as if it were not there. */
  lemma UnhandledLineIsTransparent(boards: map<int, Board>, selected: int, p: seq<string>, u: string, q: seq<string>)
    requires Decode(u) == Unhandled
    ensures RunLines(boards, selected, p + [u] + q) == RunLines(boards, selected, p + q)
  {
    var o := RunLines(boards, selected, p);
    RunLinesAppend(boards, selected, p, [u] + q);
    RunLinesAppend(boards, selected, p, q);
    assert p + [u] + q == p + ([u] + q);
    if o.ok {
      assert ([u] + q)[1..] == q;
    }
  }

  /** The evidently intended handling of a batch of lines: a line that
      throws is skipped and the following lines are still applied. */
  function RunAll(boards: map<int, Board>, selected: int, msgs: seq<string>): map<int, Board>
    decreases |msgs|
  {
    if msgs == [] then boards
    else RunAll(Step(boards, selected, msgs[0]).boards, selected, msgs[1..])
  }

  /** Applying two batches with `RunAll` is applying their concatenation,
      whatever the lines. */
  lemma {:induction false} RunAllAppend(boards: map<int, Board>, selected: int, p: seq<string>, q: seq<string>)
    ensures RunAll(boards, selected, p + q) == RunAll(RunAll(boards, selected, p), selected, q)
    decreases |p|
  {
    if p == [] {
      assert p + q == q;
    } else {
      assert (p + q)[0] == p[0];
      assert (p + q)[1..] == p[1..] + q;
      RunAllAppend(Step(boards, selected, p[0]).boards, selected, p[1..], q);
    }
  }

  /** When no line throws, the code as written and the intended handling
      agree. */
  lemma {:induction false} RunLinesIsRunAll(boards: map<int, Board>, selected: int, msgs: seq<string>)
    requires RunLines(boards, selected, msgs).ok
    ensures RunLines(boards, selected, msgs).boards == RunAll(boards, selected, msgs)
    decreases |msgs|
  {
    if msgs != [] {
      RunLinesIsRunAll(Step(boards, selected, msgs[0]).boards, selected, msgs[1..]);
    }
  }
}
