# Relay console protocol engine

A Dafny model of the protocol engine inside `app.js`, the page script of a console for a set of relay boards: one master unit (board 0) and auxiliary boards 1 .. n, each with six channels that are armed or disarmed. The console receives notifications over Bluetooth LE, and a notification may carry any fragment of the text stream. The model covers:

- the framing of that stream into lines (`handleNotify`);
- the reading of each line (`processMessage`);
- the rebuild of the board map on a board count (`initBoards`);
- the in-place write of one channel;
- the selection of a board (`window.selectBoard`);
- the text of outbound commands (`window.sendAction`, `sendData`).

Modules:

- `JsText` (jstext.dfy): the JavaScript built-ins the engine relies on, as pure functions. These are `trim`, `split` with a one-character separator, `includes`, `substring(k)`, ASCII `toLowerCase`, `parseInt` with no radix, and the decimal text of an integer. A `parseInt` result is a `Num`: an integer or NaN.
- `Framer` (framer.dfy): the framing of one notification as a function on the pending text. Proved: no data is lost, no line feed stays pending, and framing is invariant under fragmentation.
- `Protocol` (protocol.dfy): the line decoder `Decode`, the inbound and outbound line shapes, and the round trips between them.
- `Boards` (boards.dfy):
  - the board map as values;
  - the resync `Resync`;
  - the effect of one line, `Step`, including the TypeErrors the source can throw part way through;
  - the run of a notification's lines, `RunLines`, which stops at the first throw.
- `Engine` (engine.dfy): one notification end to end (`Feed`), its properties, and the counterexample listed under Findings.
- `App` (app.dfy): the class `Console` with the page's mutable state, held in three fields: `buffer` (`bleBuffer`), `boards` (`state.boards`) and `selectedBoardId`. Its handlers are methods with loops. Each is proved against the functions above, so the lemmas about those functions hold for the class.

Error handling follows the source. JavaScript exceptions cannot be written in Dafny, so a handler returns `ok == false` exactly where the source throws a TypeError. There are two such places:

- `parts[2].toLowerCase()` when a line holds `_ARMED` or `_DISARMED` but has no third `_` field (app.js:65);
- `render()` reading the name of a selected board that does not exist (app.js:86-87).

What was changed before the throw stays changed. An exception inside `lines.forEach` abandons the remaining lines of that notification, but the buffer has already been updated.

Where the code and the written design of the system disagree, the model follows the code:

- `B<b>_DISCONNECTED` is not handled at all (no `connected` flag is kept).
- `selectBoard` stores any id without validation.
- A resync does not reset the selection.
- Aux board names are always `Aux Board <i>`.
- An unknown status word is stored lower-cased rather than rejected.
- Only one kind of malformed status line throws: a line holding `_ARMED` or `_DISARMED` but with fewer than three `_`-separated fields (`X_ARMED`, app.js:65). Other malformed status lines do not throw on their own. Like any write to an existing board, though, they throw from `render` when the selected board is missing (`B0_CH9_ARMED` after `selectBoard(7)`). A board id `parseInt` cannot read is NaN, and such a line is silently ignored (`BX_CH1_ARMED`). Extra fields are not checked: `B0_CH1_FOO_ARMED` stores `foo` as the channel's state.

## Model

| member | source | states |
|---|---|---|
| JsText.TrimStart | app.js:53 | the result is a suffix of the input; what was dropped is all white space; the result does not start with white space |
| JsText.TrimEnd | app.js:53 | the result is a prefix of the input; what was dropped is all white space; the result does not end with white space |
| JsText.TrimStartNoSpace | app.js:53 | text not starting with white space is its own `trimStart` |
| JsText.Trim | app.js:53 | the result is no longer than the input and neither starts nor ends with white space; text that already neither starts nor ends with white space is kept whole; that it removes only the surrounding white space is JsText.TrimRemovesOnlySpace |
| JsText.TrimRemovesOnlySpace | app.js:53 | `trim` removes the surrounding white space and nothing else: the result is the input from its first non-blank character on, and only white space comes before and after it |
| JsText.TrimSlice | app.js:53 | the trimmed text is what the input holds from its leading white space on |
| JsText.TrimSliceAfter | app.js:53 | everything after the trimmed text is white space |
| JsText.TrimTrailingSpace | app.js:53 | text with no white space at either end, followed by white space (such as a CRLF's carriage return), trims to itself |
| JsText.TrimEndSpaces | app.js:53 | `trimEnd` removes exactly a trailing run of white space |
| JsText.Split | app.js:51 | `split` gives at least one piece; more than one exactly when the separator occurs; no piece holds the separator |
| JsText.JoinSplit | app.js:51 | splitting loses nothing: joining the pieces with the separator gives back the text |
| JsText.SplitNoSeparator | app.js:50-52 | a text without the separator splits into itself alone |
| JsText.SplitFirstPiece | app.js:59 | the first separator ends the first piece; the rest splits on its own |
| JsText.SplitJoin | app.js:62 | separator-free pieces joined by the separator split back into exactly those pieces |
| JsText.Contains | app.js:61 | `includes`: a text includes every prefix of itself, and only a text at least as long as the token can include it; the full meaning, an occurrence at some index, is JsText.ContainsOccurs |
| JsText.ContainsOccurs | app.js:61 | a text includes a token exactly when the token occurs in it at some index |
| JsText.OccursShift | app.js:61 | when a text does not start with the token, the token occurs in it exactly when it occurs in the text after its first character |
| JsText.ContainsFirstChar | app.js:61 | a text that includes a token holds the token's first character |
| JsText.ContainsSuffix | app.js:61 | a text ending in a token includes it |
| JsText.ContainsSkip | app.js:61 | a prefix without the token's first character cannot hold the start of an occurrence of the token |
| JsText.Drop | app.js:63-64 | `substring(k)` is the suffix of the text from index `k`, of length `len - k`, or empty when `k` is past the end |
| JsText.ToLower | app.js:65 | same length; no ASCII capital is left; each capital becomes the letter 32 code points above it; every other character is kept |
| JsText.ToLowerIdempotent | app.js:65 | lower-casing twice is lower-casing once |
| JsText.DigitValue | app.js:59 | the value is at most 36, and 36 exactly for a character that is no letter or digit; below 10 exactly for a decimal digit, which maps to its own value; below 16 exactly for a hexadecimal digit |
| JsText.LeadingDigits | app.js:59 | the longest prefix of digits of the radix: a prefix, all digits, and the next character is not one |
| JsText.ParseInt | app.js:59 | `parseInt` of blank text, or of text whose first non-blank character is no sign and no digit, is NaN; a negative result needs a leading `-`; exactly when it is a number is JsText.ParseIntNumeral, and which number is JsText.ParseLeadingInt |
| JsText.ParseNonDigit | app.js:63 | text starting with a character that is no white space, sign or digit reads as NaN |
| JsText.ParseUnsigned | app.js:59 | the unsigned part of `parseInt` never yields a negative integer, and yields NaN when no digit comes first; exactly when it is a number is JsText.ParseUnsignedNumeral |
| JsText.ParseIntNumeral | app.js:59 | `parseInt` gives an integer exactly when, past leading white space and one optional sign, the text starts a numeral: a decimal digit, or `0x` / `0X` and a hexadecimal digit |
| JsText.ParseUnsignedNumeral | app.js:59 | the unsigned part gives an integer exactly when the text starts a numeral |
| JsText.LeadingDigitsPrefix | app.js:63-64 | a run of decimal digits followed by a non-digit is read up to the non-digit |
| JsText.ParseUnsignedLeadingNat | app.js:63-64 | the unsigned part reads the decimal text of a natural number and ignores what follows when it does not go on with a digit (or, after a lone `0`, with `x`) |
| JsText.ParseLeadingInt | app.js:63-64 | `parseInt` reads the leading decimal text of any integer, negative ones included, and ignores the rest of the text when it does not go on with a digit |
| JsText.ParseLeadingNegative | app.js:63-64 | `-` followed by the decimal text of a positive number, and text not going on with a digit, reads as the negated number |
| JsText.ParseLeadingNat | app.js:63-64 | the decimal text of a natural number, followed by text not going on with a digit, reads as that number |
| JsText.ParseNegative | app.js:63-64 | text starting with `-` reads as the negation of its unsigned part, NaN staying NaN |
| JsText.ParseDigitFirst | app.js:59 | text starting with a decimal digit is read by the unsigned part alone |
| JsText.NatToString | app.js:112 | the decimal text of a natural number is non-empty and all digits |
| JsText.IntToString | app.js:112 | the text of an integer is non-empty and made of digits and `-` |
| JsText.NumToString | app.js:112 | the text of a Number is never empty |
| JsText.DigitsValueOfNatToString | app.js:112 | reading the decimal text of a natural number gives the number back |
| JsText.AllDigitsAreLeading | app.js:59 | a text of decimal digits is read whole |
| JsText.ParseUnsignedNatToString | app.js:59 | the unsigned part of `parseInt` reads back the decimal text of a natural number |
| JsText.ParseIntToString | app.js:63-64 | `parseInt` reads back the decimal text of every integer, negative ones included |
| JsText.ParseNumToString | app.js:112 | `parseInt` reads back the text of every Number it can produce, NaN included |
| JsText.ParseNaNText | app.js:63-64 | `parseInt("NaN")` is NaN |
| Framer.TerminatedAppend | app.js:51-52 | the lines of two batches, each with its line feed, concatenate |
| Framer.JoinIsTerminated | app.js:51-52 | joining pieces by line feeds is every piece but the last with its line feed, followed by the last |
| Framer.SplitTerminated | app.js:51-52 | newline-free lines, each with its line feed, and a newline-free tail split back into exactly those lines and that tail |
| Framer.Frame | app.js:48-52 | the new buffer holds no line feed and neither does any emitted line; lines are emitted exactly when the buffer plus the chunk holds a line feed |
| Framer.Messages | app.js:53 | one message per complete line, each neither starting nor ending with white space; that each is its line with only the surrounding white space removed is Framer.MessagesAreTrims |
| Framer.MessagesAreTrims | app.js:53 | message `i` is line `i` with its surrounding white space removed and nothing else |
| Framer.FrameLosesNothing | app.js:48-52 | no data is lost: old buffer plus chunk equals the emitted lines, each with its line feed, followed by the new buffer; neither holds a line feed |
| Framer.FrameNoNewline | app.js:50 | a chunk that brings no line feed into a buffer without one emits nothing and only grows the buffer |
| Framer.FrameUnique | app.js:48-52 | framing is determined by the text: any such decomposition is the one emitted |
| Framer.FrameFragmentation | app.js:46-55 | delivering `a` then `b` emits the same lines in the same order and leaves the same buffer as delivering `a + b` |
| Framer.FrameAllIsFrame | app.js:46-55 | however a stream is cut into notifications, framing them one by one equals framing the whole stream |
| Protocol.IntToStringFree | app.js:112 | the text of an integer holds no separator, line feed or colon |
| Protocol.NumToStringFree | app.js:112 | the text of a Number holds no `_`, line feed or `:` |
| Protocol.NotContains | app.js:61 | a text without the token's first character does not include the token |
| Protocol.JoinThree | app.js:62 | three fields joined by `_` are the fields with two `_` between them |
| Protocol.NoStatusTokenJoin | app.js:61 | a prefix without `_` adds no `_ARMED` / `_DISARMED` occurrence |
| Protocol.NoStatusTokenAfterUnderscore | app.js:61 | a `_` that does not begin `_ARMED` or `_DISARMED`, followed by text without either token, gives text without either |
| Protocol.NoStatusTokenFree | app.js:61 | text without `_` holds neither token |
| Protocol.NotBoardsLine | app.js:58 | a line whose second character is not `O` does not start with `BOARDS:` |
| Protocol.Decode | app.js:57-65 | a line is a board count exactly when it starts with `BOARDS:`; it is unhandled exactly when it neither starts so nor holds `_ARMED` / `_DISARMED`; it throws exactly when it holds a token but splits into only two `_` fields; a channel status comes from at least three fields and its state holds no capital |
| Protocol.DecodeNaNBoardLine | app.js:61-65 | `B<w>_CH<c>_ARMED`, with `w` unreadable by `parseInt` (`BX`), decodes to a status for board NaN |
| Protocol.DecodeUnhandled | app.js:57-71 | a line that neither starts with `BOARDS:` nor holds a status token is not handled |
| Protocol.TaggedLineUnhandled | app.js:57-71 | `B<id>` followed by text without a status token is not handled |
| Protocol.TaggedWordUnhandled | app.js:57-71 | `B<id>_<word>`, where the word has no `_` and does not begin `ARMED` or `DISARMED`, is not handled |
| Protocol.VerbNoToken | app.js:102-103 | the outbound verbs `_ARM` and `_DISARM` hold no inbound status token |
| Protocol.DecodeBoardsLine | app.js:58-60 | `BOARDS:<n>` decodes to the board count `n` |
| Protocol.ToLowerTokens | app.js:65 | `ARMED` and `DISARMED` lower-case to `armed` and `disarmed` |
| Protocol.DecodeStatusLine | app.js:61-65 | `B<b>_CH<c>_ARMED` / `_DISARMED` decodes to board `b`, channel `c`, state `armed` / `disarmed` |
| Protocol.FieldsSplit | app.js:62 | three `_`-free fields joined by `_` split back into exactly those fields |
| Protocol.DecodeFields | app.js:61-65 | a three-field line that is no board-count line but holds a status token is read as board `parseInt` of the first field past `B`, channel of the second past `CH`, status the lower-cased third |
| Protocol.BoardField | app.js:63 | the field `B<id>` reads back as `id` |
| Protocol.ChannelField | app.js:64 | the field `CH<ch>` reads back as `ch`, NaN included |
| Protocol.ActionLineFields | app.js:112 | read as `processMessage` reads fields, an outbound action line gives back the selected board and the channel |
| Protocol.ActionLineUnhandled | app.js:112 | the outbound `ARM` / `DISARM` lines hold neither `_ARMED` nor `_DISARMED`, so read back they are not handled |
| Protocol.SyncRequestsUnhandled | app.js:121 | `SYNC_BOARDS` and `SYNC_ALL` are not inbound messages |
| Protocol.SyncUnhandled | app.js:121 | each sync request decodes to an unhandled line |
| Protocol.ActionLine | app.js:112 | the outbound line starts with `B` and ends with `_` and the action; it holds a line feed only if the action does |
| Protocol.Payload | app.js:117 | the payload of a line without a line feed splits on line feeds into that line and an empty rest |
| Protocol.LineFeedSplit | app.js:117 | a line without a line feed, followed by one, splits on line feeds into the line and an empty rest |
| Protocol.PayloadFrames | app.js:117 | a payload framed from an empty buffer is exactly the one line sent |
| Protocol.ActionPayloadFrames | app.js:112-117 | every action payload is one line and one line feed |
| Boards.ChannelsBelowShape | app.js:75 | after the fill loop reaches `j`, the channels are exactly 1 .. j-1, all disarmed |
| Boards.FreshChannelsShape | app.js:75-79 | a fresh board has exactly channels 1 .. 6, all `disarmed` |
| Boards.BoardsBelowShape | app.js:77-80 | before the loop reaches `i`, the boards are exactly 0 .. i-1, each as a resync creates it |
| Boards.ResyncShape | app.js:73-82 | a resync leaves exactly boards 0 .. count (only board 0 when the count is NaN or below 1), each with its id, `Master Unit` or `Aux Board <id>`, and fresh channels; nothing of the old boards survives |
| Boards.Resync | app.js:73-80 | after `initBoards(count)` the boards are exactly 0 .. count (just 0 for NaN or a count below 1); board 0 is always there as `Master Unit` with fresh channels |
| Boards.SetChannel | app.js:67 | the write sets that one channel of that one board (adding it if absent); every other board, channel, id and name is unchanged |
| Boards.Step | app.js:57-71 | a line with a token and only two fields throws before any change; an unhandled line changes nothing; a throw comes only from such a line or a missing selected board; a board count always leaves board 0; any other line keeps the set of boards and every board's id and name, and a status touches no board but the one it names |
| Boards.StepUnknownBoard | app.js:66 | a status for a NaN board id or an id naming no board changes nothing and does not throw |
| Boards.StepNaNBoardLine | app.js:63-66 | `BX_CH<c>_ARMED` / `_DISARMED` is ignored whatever the boards |
| Boards.StepStatusLine | app.js:61-69 | a status line for a known board sets exactly that channel and completes iff the selected board exists; for an unknown board nothing changes |
| Boards.StepBoardsLine | app.js:58-60 | a board-count line replaces the boards by the resync of its count, completing iff the selected board survives |
| Boards.StepOutboundLines | app.js:57-71 | the console's own outbound lines, read back, change nothing and do not throw |
| Boards.StepDisconnectedLine | app.js:57-71 | `B<b>_DISCONNECTED` changes nothing |
| Boards.RunLines | app.js:53 | lines that are all unhandled change nothing and do not throw; lines none of which is a board count keep the set of boards; a throw means the selected board is missing or some line has a token and only two fields |
| Boards.RunLinesFrom | app.js:53 | a run from line `i` applies that line and continues only if it did not throw |
| Boards.RunLinesAppend | app.js:53 | running two batches back to back is running their concatenation, unless the first throws |
| Boards.UnhandledLineIsTransparent | app.js:53 | an unhandled line between other lines neither stops them nor changes their effect |
| Boards.RunAllAppend | app.js:53 | with a throwing line skipped, running two batches is running their concatenation, for any lines |
| Boards.RunLinesIsRunAll | app.js:53 | when no line throws, the code as written and the skip-on-throw handling agree |
| Engine.Feed | app.js:46-55 | after a notification no line feed is pending and the selection is unchanged; the buffer only shrinks below the old buffer plus the chunk when a line feed arrived; a notification whose lines are all unhandled changes no board and does not throw |
| Engine.FeedBuffer | app.js:46-55 | after a notification no line feed is pending, the selection is unchanged, and the old buffer plus the chunk are the handled lines followed by the new buffer |
| Engine.FeedNoNewline | app.js:48-50 | a chunk without a line feed only grows the buffer and changes no board |
| Engine.FeedFragmentation | app.js:46-55 | two notifications leave the same state as their concatenation, provided the first does not throw |
| Engine.FeedAllFragmentation | app.js:46-55 | with a throwing line skipped, two notifications always leave the same state as their concatenation |
| Engine.FeedIsFeedAll | app.js:46-55 | when no line throws, both handlings give the same state |
| Engine.DecodeTruncatedLine | app.js:62-65 | `X_ARMED` holds a status token but has no third field, so it throws |
| Engine.TruncatedLineShape | app.js:53-65 | `X_ARMED` holds no line feed, trims to itself, and throws |
| Engine.OneLine | app.js:51-53 | one untrimmed line, sent with its line feed, is framed and trimmed into exactly itself |
| Engine.FeedOneLine | app.js:46-55 | a notification carrying one such line applies exactly that line |
| Engine.TruncatedNotificationThrows | app.js:53-65 | the notification `X_ARMED\n` throws and changes nothing |
| Engine.StatusNotificationSets | app.js:53-69 | a status notification for a known board sets that channel |
| Engine.FeedOneRawLine | app.js:46-55 | on an empty buffer, a notification carrying one line and its line feed applies exactly the trimmed line and leaves nothing pending |
| Engine.CrlfLine | app.js:53 | a line ended by CRLF has the same effect as the line ended by a line feed alone |
| Engine.CrlfStatusNotificationSets | app.js:53-69 | `B<b>_CH<c>_ARMED` / `_DISARMED` ended by CRLF sets that channel of a known board, like the same line ended by a line feed |
| Engine.TwoLines | app.js:51-52 | two lines, each with its line feed, frame into exactly those two lines |
| Engine.JoinedNotificationStops | app.js:53-65 | `X_ARMED\n` followed by any line in one notification throws before that line is applied |
| Engine.FirstLineStops | app.js:53-65 | on an empty buffer, a notification whose first line has a status token and no third field changes nothing and throws, whatever line follows it |
| Engine.SeparateNotificationsArm | app.js:46-55 | sent as two notifications, `X_ARMED\n` throws and the following status line still arms its channel |
| Engine.JoinedNotificationKeeps | app.js:46-55 | sent as one notification, the status line after `X_ARMED` leaves its channel as it was |
| Engine.AbortDependsOnFragmentation | app.js:53-65 | the same text leaves a channel disarmed as one notification and armed as two |
| Engine.MasterOnlyFits | app.js:73-75 | after `BOARDS:0` with nothing pending, board 0 channel 1 is disarmed, so the counterexample applies to a real session |
| App.Console.constructor | app.js:8-13 | a new page has nothing pending, no boards, and board 0 selected |
| App.Console.Render | app.js:85-87 | `render` throws exactly when the selected board does not exist |
| App.Console.AddBoard | app.js:74-79 | creating a board and filling its channels one by one leaves that board with fresh channels; every other board is unchanged |
| App.Console.InitBoards | app.js:73-82 | the in-place rebuild leaves exactly the resync of the count; it throws iff the selected board is gone; buffer and selection are unchanged |
| App.Console.ProcessMessage | app.js:57-71 | the in-place handling of one line has exactly the effect and the throw of `Step`; buffer and selection are unchanged |
| App.Console.ProcessLines | app.js:53 | the `forEach` loop has exactly the effect of `RunLines` over the trimmed lines, stopping at the first throw |
| App.Console.HandleNotify | app.js:46-55 | the handler's new buffer, boards and outcome are exactly `Feed` of the old state; no line feed stays pending |
| App.Console.SelectBoard | app.js:109 | the selection becomes exactly the given id, with no validation; nothing else changes; `render` throws iff no such board exists |
| App.Console.SendAction | app.js:111-117 | the payload is `B<selected>_CH<ch>_<action>` and a line feed; split as `processMessage` splits, it reads back the selected board, the channel and the action |

## Left out

- The Bluetooth LE connection: device request, GATT service and characteristics, subscription to notifications (app.js:23-43). It is I/O. The initial `SYNC_BOARDS` it sends appears only as a line shape.
- `TextDecoder` and `TextEncoder`: notifications are modelled as text. A multi-byte character split across two notifications is therefore not modelled, and neither is the byte encoding of the payload.
- `sendData`'s `writeValue` call, its `await`, and its `!writeChar` guard (app.js:115-118). They are I/O. The model stops at the text handed to the encoder.
- `render`'s output to the page (app.js:88-106). Only its TypeError for a missing selected board is modelled.
- The refresh button and the connect button listeners (app.js:120-121). They only call the operations above.
- Number precision: JavaScript Numbers lose integer precision beyond 2^53, and `${x}` switches to exponent notation for large values. The model uses unbounded integers.
- `toLowerCase` is modelled on ASCII letters only. Other letters are kept as they are.
- `Object.entries` / `Object.values` order (used only for rendering) is not modelled. Maps are unordered.
- Boards are values in a map rather than shared objects. The source never aliases a board, so the model's in-place writes have the same effect.
- JsText.Drop: strings are sequences of code points, not of UTF-16 code units, so `substring(k)` and `length` differ from the model when a field starts with a character outside the Basic Multilingual Plane. For example, `😀0_CH1_ARMED` leaves the boards unchanged in the source, because `substring(1)` keeps a lone surrogate and `parseInt` gives NaN, while the model arms channel 1 of board 0, which exists after every resync.
- JsText.Split is modelled for one-character separators only, the only kind the source uses.

## Findings

| source | as written | input that shows it | evidently intended | confidence | as-written member | corrected member |
|---|---|---|---|---|---|---|
| app.js:53-65 | a line that throws inside `lines.forEach` (a status token with no third `_` field, or a resync or channel write while the selected board is missing) abandons every later line of the same notification, so the resulting boards depend on how the stream was fragmented | with board 0 channel 1 disarmed and nothing pending: `X_ARMED\nB0_CH1_ARMED\n` as one notification leaves the channel disarmed; as `X_ARMED\n` and `B0_CH1_ARMED\n` it arms it | a malformed line is skipped and the following lines are still applied, so that the state does not depend on fragmentation | not executed | Engine.AbortDependsOnFragmentation | Engine.FeedAllFragmentation |
