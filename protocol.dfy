/** The text protocol between the console and the relay boards: how
    `processMessage` (app.js:57-71) reads an inbound line, the inbound line
    shapes the boards send, and the outbound text `sendAction` and `sendData`
    build (app.js:111-117). */
module Protocol {
  import opened JsText
  import opened Framer

  /** What `processMessage` makes of one trimmed line. */
  datatype Message =
    | BoardCount(count: Num)
      // `BOARDS:` prefix: the count is `parseInt` of the text between the first
      // and the second `:`
    | ChannelStatus(board: Num, channel: Num, status: string)
      // holds `_ARMED` or `_DISARMED`: ids from `parseInt` of the first two
      // `_`-separated fields past their `B` / `CH`, status the lower-cased third
    | MissingStatus
      // holds `_ARMED` or `_DISARMED` but has no third `_`-separated field:
      // `parts[2].toLowerCase()` throws a TypeError
    | Unhandled
      // every other line, `B<b>_DISCONNECTED` included

  const BoardsPrefix := "BOARDS:"
  const ArmedToken := "_ARMED"
  const DisarmedToken := "_DISARMED"

  /** The branch `processMessage` takes for a trimmed line: a count for a
      `BOARDS:` line, a channel status for a line holding a status token and
      at least three `_`-separated fields, a TypeError for one holding a
      token and only two fields, and nothing for any other line. */
  function Decode(msg: string): (m: Message)
    ensures m.BoardCount? <==> BoardsPrefix <= msg
    ensures m.Unhandled? <==> !(BoardsPrefix <= msg) && !HasStatusToken(msg)
    ensures m.MissingStatus? <==> !(BoardsPrefix <= msg) && HasStatusToken(msg) && |Split(msg, '_')| == 2
    ensures m.ChannelStatus? ==> |Split(msg, '_')| >= 3
    ensures m.ChannelStatus? ==> forall i :: 0 <= i < |m.status| ==> !('A' <= m.status[i] <= 'Z')
  {
    if BoardsPrefix <= msg then
      assert msg[6] == ':';
      BoardCount(ParseInt(Split(msg, ':')[1]))
    else if HasStatusToken(msg) then
      TokenHasUnderscore(msg);
      var parts := Split(msg, '_');
      if |parts| < 3 then MissingStatus
      else ChannelStatus(ParseInt(Drop(parts[0], 1)), ParseInt(Drop(parts[1], 2)), ToLower(parts[2]))
    else Unhandled
  }

  /** `msg.includes("_ARMED") || msg.includes("_DISARMED")` */
  predicate HasStatusToken(msg: string) {
    Contains(msg, ArmedToken) || Contains(msg, DisarmedToken)
  }

  /** Both status tokens start with `_`, so a line holding one has at least
      two `_`-separated fields. */
  lemma TokenHasUnderscore(msg: string)
    requires HasStatusToken(msg)
    ensures '_' in msg && |Split(msg, '_')| >= 2
  {
    if Contains(msg, ArmedToken) {
      ContainsFirstChar(msg, ArmedToken);
    } else {
      ContainsFirstChar(msg, DisarmedToken);
    }
  }

  /** The inbound board-count line, `BOARDS:<n>`. */
  function BoardsLine(n: int): string {
    BoardsPrefix + IntToString(n)
  }

  /** Three fields joined by `_`, the shape of the status and action lines. */
  function Fields(a: string, b: string, c: string): string {
    a + "_" + b + "_" + c
  }

  /** The inbound channel-state line, `B<b>_CH<c>_ARMED` or `B<b>_CH<c>_DISARMED`. */
  function StatusLine(b: int, c: int, armed: bool): string {
    Fields("B" + IntToString(b), "CH" + IntToString(c), if armed then "ARMED" else "DISARMED")
  }

  /** The channel state a status line stands for once lower-cased. */
  function StatusText(armed: bool): string {
    if armed then "armed" else "disarmed"
  }

  /** `B${state.selectedBoardId}_CH${ch}_${action}` */
  function ActionLine(selected: int, ch: Num, action: string): (r: string)
    ensures |r| > |action| && r[0] == 'B' && r[|r| - |action| - 1..] == "_" + action
    ensures '\n' !in action ==> '\n' !in r
  {
    IntToStringFree(selected, '\n');
    NumToStringFree(ch, '\n');
    Fields("B" + IntToString(selected), "CH" + NumToString(ch), action)
  }

  /** The text `sendData` hands to the encoder: the line and one line feed,
      which a receiver splitting on line feeds reads as that one line and
      nothing pending. */
  function Payload(line: string): (p: string)
    ensures '\n' !in line ==> Split(p, '\n') == [line, ""]
  {
    LineFeedSplit(line);
    line + "\n"
  }

  lemma LineFeedSplit(line: string)
    ensures '\n' !in line ==> Split(line + "\n", '\n') == [line, ""]
  {
    if '\n' !in line {
      assert line + "\n" == line + ['\n'] + "";
      SplitFirstPiece(line, '\n', "");
      SplitNoSeparator("", '\n');
    }
  }

  /** The two fixed requests: the initial sync after connecting and the
      refresh button's request. */
  const SyncBoards := "SYNC_BOARDS"
  const SyncAll := "SYNC_ALL"

  /** The verb the console sends for an arm or a disarm button. */
  function ActionVerb(arm: bool): string {
    if arm then "ARM" else "DISARM"
  }

  lemma IntToStringFree(n: int, c: char)
    requires c != '-' && !('0' <= c <= '9')
    ensures c !in IntToString(n)
  {
  }

  lemma NumToStringFree(x: Num, c: char)
    requires c == '_' || c == '\n' || c == ':'
    ensures c !in NumToString(x)
  {
    if x.Int? {
      IntToStringFree(x.value, c);
    }
  }

  /** A string without the first character of `t` does not contain `t`. */
  lemma NotContains(s: string, t: string)
    requires t != [] && t[0] !in s
    ensures !Contains(s, t)
  {
    ContainsSkip(s, "", t);
    assert s + "" == s;
  }

  /** A prefix without `_` adds no status token. */
  lemma NoStatusTokenJoin(head: string, tail: string)
    requires '_' !in head && !HasStatusToken(tail)
    ensures !HasStatusToken(head + tail)
  {
    ContainsSkip(head, tail, ArmedToken);
    ContainsSkip(head, tail, DisarmedToken);
  }

  /** A `_` followed by text that spells neither `ARMED` nor `DISARMED`
      from its start, and that holds no status token, holds none either. */
  lemma NoStatusTokenAfterUnderscore(w: string)
    requires |w| < 5 || w[0] != 'A'
    requires |w| < 8 || w[0] != 'D' || w[3] != 'A'
    requires !HasStatusToken(w)
    ensures !HasStatusToken("_" + w)
  {
    var u := "_" + w;
    assert u[1..] == w;
    if |w| >= 5 {
      assert u[1] == w[0];
    }
    if |w| >= 8 {
      assert u[1] == w[0] && u[4] == w[3];
    }
  }

  /** Text without `_` holds no status token. */
  lemma NoStatusTokenFree(w: string)
    requires '_' !in w
    ensures !HasStatusToken(w)
  {
    NotContains(w, ArmedToken);
    NotContains(w, DisarmedToken);
  }

  /** A line whose second character is not `O` is no board-count line. */
  lemma NotBoardsLine(line: string)
    requires |line| >= 2 && line[1] != 'O'
    ensures !(BoardsPrefix <= line)
  {
  }

  lemma JoinThree(a: string, b: string, c: string)
    ensures Join([a, b, c], '_') == Fields(a, b, c)
  {
    assert [a, b, c][1..] == [b, c];
    assert [b, c][1..] == [c];
    assert Join([b, c], '_') == b + "_" + c;
    assert a + ['_'] + (b + "_" + c) == a + "_" + b + "_" + c;
  }

  /** Three fields without `_`, joined by `_`, split back into those fields. */
  lemma FieldsSplit(a: string, b: string, c: string)
    requires '_' !in a && '_' !in b && '_' !in c
    ensures Split(Fields(a, b, c), '_') == [a, b, c]
  {
    JoinThree(a, b, c);
    SplitJoin([a, b, c], '_');
  }

  lemma FieldsRegroup(a: string, b: string, c: string)
    ensures Fields(a, b, c) == a + ("_" + (b + ("_" + c)))
    ensures Fields(a, b, c) == (a + "_" + b) + ("_" + c)
  {
  }

  /** A line of three `_`-free fields that is no board-count line but holds a
      status token is read as a channel status from those fields. */
  lemma DecodeFields(a: string, b: string, c: string)
    requires '_' !in a && '_' !in b && '_' !in c
    requires !(BoardsPrefix <= Fields(a, b, c)) && HasStatusToken(Fields(a, b, c))
    ensures Decode(Fields(a, b, c)) == ChannelStatus(ParseInt(Drop(a, 1)), ParseInt(Drop(b, 2)), ToLower(c))
  {
    FieldsSplit(a, b, c);
  }

  /** The board field `B<id>` reads back as `id`. */
  lemma BoardField(id: int)
    ensures ParseInt(Drop("B" + IntToString(id), 1)) == Int(id)
  {
    assert ("B" + IntToString(id))[1..] == IntToString(id);
    ParseIntToString(id);
  }

  /** The channel field `CH<ch>` reads back as `ch`. */
  lemma ChannelField(ch: Num)
    ensures ParseInt(Drop("CH" + NumToString(ch), 2)) == ch
  {
    assert ("CH" + NumToString(ch))[2..] == NumToString(ch);
    ParseNumToString(ch);
  }

  /** A board-count line decodes to its count. */
  lemma DecodeBoardsLine(n: int)
    ensures Decode(BoardsLine(n)) == BoardCount(Int(n))
  {
    var digits := IntToString(n);
    var line := BoardsLine(n);
    assert line == "BOARDS" + [':'] + digits;
    IntToStringFree(n, ':');
    SplitFirstPiece("BOARDS", ':', digits);
    SplitNoSeparator(digits, ':');
    ParseIntToString(n);
  }

  lemma ToLowerTokens()
    ensures ToLower("ARMED") == "armed" && ToLower("DISARMED") == "disarmed"
  {
  }

  /** A channel-state line decodes to its board, its channel and the
      lower-cased state. */
  lemma DecodeStatusLine(b: int, c: int, armed: bool)
    ensures Decode(StatusLine(b, c, armed)) == ChannelStatus(Int(b), Int(c), StatusText(armed))
  {
    var db, dc := IntToString(b), IntToString(c);
    var token := if armed then "ARMED" else "DISARMED";
    var p0, p1 := "B" + db, "CH" + dc;
    var line := StatusLine(b, c, armed);
    FieldsRegroup(p0, p1, token);
    // not a board-count line: its second character is a digit or a sign
    assert !(BoardsPrefix <= line) by {
      assert line[1] == db[0];
      NotBoardsLine(line);
    }
    // it ends with the state token
    assert HasStatusToken(line) by {
      ContainsSuffix(p0 + "_" + p1, "_" + token);
      assert "_" + token == if armed then ArmedToken else DisarmedToken;
    }
    IntToStringFree(b, '_');
    IntToStringFree(c, '_');
    assert '_' !in token;
    DecodeFields(p0, p1, token);
    BoardField(b);
    ChannelField(Int(c));
    ToLowerTokens();
  }

  /** A status line whose board field is `B` and text that `parseInt`
      cannot read (`BX_CH1_ARMED`) decodes as a channel status whose board id
      is NaN. */
  lemma DecodeNaNBoardLine(w: string, c: int, armed: bool)
    requires w != [] && '_' !in w && w[0] != 'O'
    requires !IsSpace(w[0]) && w[0] != '-' && w[0] != '+' && DigitValue(w[0]) >= 10
    ensures var token := if armed then "ARMED" else "DISARMED";
      Decode(Fields("B" + w, "CH" + IntToString(c), token)) == ChannelStatus(NaN, Int(c), StatusText(armed))
  {
    var dc := IntToString(c);
    var token := if armed then "ARMED" else "DISARMED";
    var p0, p1 := "B" + w, "CH" + dc;
    var line := Fields(p0, p1, token);
    FieldsRegroup(p0, p1, token);
    assert !(BoardsPrefix <= line) by {
      assert line[1] == w[0];
      NotBoardsLine(line);
    }
    assert HasStatusToken(line) by {
      ContainsSuffix(p0 + "_" + p1, "_" + token);
      assert "_" + token == if armed then ArmedToken else DisarmedToken;
    }
    IntToStringFree(c, '_');
    assert '_' !in token;
    DecodeFields(p0, p1, token);
    assert Drop(p0, 1) == w;
    ParseNonDigit(w);
    ChannelField(Int(c));
    ToLowerTokens();
  }

  /** An action line splits into the three fields `processMessage` would
      read, and those read back as the selected board and the channel. */
  lemma ActionLineFields(selected: int, ch: Num, action: string)
    requires '_' !in action
    ensures var parts := Split(ActionLine(selected, ch, action), '_');
      && parts == ["B" + IntToString(selected), "CH" + NumToString(ch), action]
      && ParseInt(Drop(parts[0], 1)) == Int(selected)
      && ParseInt(Drop(parts[1], 2)) == ch
  {
    var p0, p1 := "B" + IntToString(selected), "CH" + NumToString(ch);
    assert Split(ActionLine(selected, ch, action), '_') == [p0, p1, action] by {
      IntToStringFree(selected, '_');
      NumToStringFree(ch, '_');
      FieldsSplit(p0, p1, action);
    }
    BoardField(selected);
    ChannelField(ch);
  }

  /** A line that is neither a board-count line nor holds a status token
      is not handled. */
  lemma DecodeUnhandled(msg: string)
    requires !(BoardsPrefix <= msg) && !HasStatusToken(msg)
    ensures Decode(msg) == Unhandled
  {
  }

  /** `B<id>` followed by text without a status token is not handled. */
  lemma TaggedLineUnhandled(id: string, tail: string)
    requires id != [] && id[0] != 'O' && '_' !in id && !HasStatusToken(tail)
    ensures Decode("B" + id + tail) == Unhandled
  {
    var line := "B" + id + tail;
    assert line == "B" + (id + tail);
    assert line[1] == id[0];
    NotBoardsLine(line);
    NoStatusTokenJoin("B" + id, tail);
    DecodeUnhandled(line);
  }

  /** `B<id>_<word>`, where the word spells neither `ARMED` nor `DISARMED`
      from its start and holds no `_`, is not handled. */
  lemma TaggedWordUnhandled(id: string, word: string)
    requires id != [] && id[0] != 'O' && '_' !in id && '_' !in word
    requires |word| < 5 || word[0] != 'A'
    requires |word| < 8 || word[0] != 'D' || word[3] != 'A'
    ensures Decode("B" + id + "_" + word) == Unhandled
  {
    NoStatusTokenFree(word);
    NoStatusTokenAfterUnderscore(word);
    TaggedLineUnhandled(id, "_" + word);
    assert "B" + id + "_" + word == "B" + id + ("_" + word);
  }

  /** `_ARM` and `_DISARM` hold no status token. */
  lemma VerbNoToken(arm: bool)
    ensures !HasStatusToken("_" + ActionVerb(arm))
  {
    var verb := ActionVerb(arm);
    NoStatusTokenFree(verb);
    NoStatusTokenAfterUnderscore(verb);
  }

  /** The outbound `ARM` / `DISARM` lines are not inbound status lines: read
      back by `processMessage` they would change nothing. */
  lemma ActionLineUnhandled(selected: int, ch: Num, arm: bool)
    ensures Decode(ActionLine(selected, ch, ActionVerb(arm))) == Unhandled
  {
    var ds, dc := IntToString(selected), NumToString(ch);
    var verb := ActionVerb(arm);
    var mid := "CH" + dc;
    var w := mid + ("_" + verb);
    assert !HasStatusToken("_" + w) by {
      NumToStringFree(ch, '_');
      VerbNoToken(arm);
      NoStatusTokenJoin(mid, "_" + verb);
      assert w[0] == 'C';
      NoStatusTokenAfterUnderscore(w);
    }
    IntToStringFree(selected, '_');
    FieldsRegroup("B" + ds, mid, verb);
    TaggedLineUnhandled(ds, "_" + w);
  }

  /** The two fixed requests are not inbound messages either. */
  lemma SyncRequestsUnhandled()
    ensures Decode(SyncBoards) == Unhandled && Decode(SyncAll) == Unhandled
  {
    SyncUnhandled(SyncBoards);
    SyncUnhandled(SyncAll);
  }

  lemma SyncUnhandled(line: string)
    requires line == SyncBoards || line == SyncAll
    ensures Decode(line) == Unhandled
  {
    var what := line[5..];
    assert line == "SYNC" + ("_" + what);
    NotBoardsLine(line);
    NoStatusTokenFree(what);
    NoStatusTokenAfterUnderscore(what);
    NoStatusTokenJoin("SYNC", "_" + what);
    DecodeUnhandled(line);
  }

  /** A payload framed on the receiving side, starting from an empty buffer,
      is exactly the one line that was sent. */
  lemma PayloadFrames(line: string)
    requires '\n' !in line
    ensures Frame("", Payload(line)) == Framed([line], "")
  {
    assert "" + Payload(line) == Terminated([line]) + "";
    FrameUnique("", Payload(line), [line], "");
  }

  /** Every action payload is one line followed by one line feed. */
  lemma ActionPayloadFrames(selected: int, ch: Num, arm: bool)
    ensures var line := ActionLine(selected, ch, ActionVerb(arm));
      Frame("", Payload(line)) == Framed([line], "")
  {
    IntToStringFree(selected, '\n');
    NumToStringFree(ch, '\n');
    PayloadFrames(ActionLine(selected, ch, ActionVerb(arm)));
  }
}
