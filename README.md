# Fint.Sse: event assembler and connection lifecycle

This project models the core of the Fint.Sse client for Server-Sent Events
(the `text/event-stream` format of section 9.2, "Server-sent events", of
the WHATWG HTML Living Standard). It covers two pieces and proves what they
promise:

- **The event assembler inside `ConnectedState.Run`.** Every chunk read
  from the response stream is appended to the text carried over from the
  previous read and cut into lines; each line then updates the optional
  event in progress (`mSse`). A blank line hands the event to the
  subscriber callback and clears it, a line starting with `:` is a
  comment, and any other line is split at its first `:` into a field
  name (`event`, `data`, `id` or `retry`, compared ignoring case) and a
  value.
- **The three connection states** `DisconnectedState`, `ConnectingState`
  and `ConnectedState`. Each `Run` is a step from the current state, the
  outcome of its I/O and the cancellation token to the next state. Each
  state projects onto the observable `EventSourceState` (CLOSED,
  CONNECTING, OPEN).

Modules, one per component:

- `Wrappers`: `Option` and `Result`. Nullable references become `Option`
  values, and constructors that throw return `Result` values.
- `SseText`: the .NET string primitives the assembler calls. These are
  `char.IsWhiteSpace` (for `Trim` and `TrimStart`), `IndexOf`, the
  ignore-case keyword comparison, and `int.TryParse`, with lemmas that it
  accepts exactly integer text whose value fits in 32 bits and that
  formatted integers parse back.
- `LineSplitter`: `StringSplitter.SplitIntoLines`. Its source is not part
  of this model, so it is written here from the behaviour the client's
  tests require. `\n`, `\r` and `\r\n` each end one line, empty lines are
  kept, and the unterminated tail is returned apart. The lines with their
  terminators, followed by the tail, give back the input, and this is the
  only well-formed split of that text.
- `EventAssembler`: the event record, the field split, one pass of the
  line loop as a function (`ApplyLine`), the loop over a run of lines
  (`FeedLines`), one read (`FeedText`) and a sequence of reads
  (`FeedChunks`).
- `ConnectionStates`: one configuration record, the three states as a
  datatype, the constructors with their null checks, the `Step` functions
  and the lifecycle lemmas.
- `Connected`: `ConnectedState` as a class. `sse` (`mSse`) and `remaining`
  (`mRemainingText`) are fields that `Run` updates line by line in a loop.
  `Run` is proved equal to `ConnectionStates.ConnectedRun`.
- `MessageExamples`: the inputs and expected outcomes of the client's
  message tests, proved of the model.

## Where the model follows the code rather than the usual SSE rules

- `data` replaces the event's data with the value followed by `"\n"`. It
  does not append to earlier data in the same event
  (Fint.Sse/ConnectedState.cs:100).
- The field value loses **all** its leading white space (`TrimStart`), not
  just one space. Its trailing white space is kept, so `"id:2 "` gives the
  id `"2 "` (Fint.Sse/ConnectedState.cs:87).
- A `retry` value that does not parse as a 32-bit integer does not even
  create an event (Fint.Sse/ConnectedState.cs:110-114).
- A blank line means a line that is empty after `Trim`, so a line of
  spaces also ends an event. With no event in progress such a line falls
  through to the field branch as an unknown name and changes nothing.
- The constructors disagree with their call sites: `ConnectingState`
  passes four arguments to the three-argument `ConnectedState`
  constructor, and `ConnectedState` passes three arguments to the
  four-argument `DisconnectedState` constructor. The model gives every
  state one `Config` record (URL, requester factory, headers, token
  source) and passes it on unchanged. The only exception is the URL,
  which becomes the response URI when a connected state disconnects.
- **Assumption about a `\r` at the end of a buffer.** The splitter sees
  only its buffer, and the test that sends `"event: test\r\r"` in one
  read expects the event to be dispatched at once. So a `\r` that ends
  the buffer counts as a complete terminator. When a read ends in the
  `\r` of a `\r\n` pair, the `\n` that starts the next read is an extra
  empty line. That line dispatches the event in progress early
  (`LineSplitter.CrLfCutYieldsExtraLine`,
  `MessageExamples.CrLfCutSplitsEvent`). Apart from that one cut,
  splitting the stream into reads never changes what is dispatched
  (`EventAssembler.ChunkingInvariance`).

## Model

| member | source | states |
|---|---|---|
| `SseText.TrimStart` | Fint.Sse/ConnectedState.cs:87 | everything removed is white space; it does not start with white space; it is empty exactly when the input is all white space |
| `SseText.TrimStartIsSuffix` | Fint.Sse/ConnectedState.cs:87 | what `TrimStart` keeps is the end of the input, unchanged |
| `SseText.IsBlank` | Fint.Sse/ConnectedState.cs:68 | a line is blank when every character is white space, which is exactly when trimming leaves nothing (the last `ensures` of `TrimStart`) |
| `SseText.EqualsIgnoreCase` | Fint.Sse/ConnectedState.cs:92-107 | `String.Compare(name, keyword, true) == 0` for a lower-case keyword; its meaning is stated by `EqualsIgnoreCasePointwise` |
| `SseText.EqualsIgnoreCasePointwise` | Fint.Sse/ConnectedState.cs:92-107 | the name matches the keyword exactly when both have the same length and every character of the name folds to the keyword's character at its index, in both directions |
| `SseText.IndexOf` | Fint.Sse/ConnectedState.cs:85 | the index holds the searched character, and no earlier position holds it |
| `SseText.ParseInt32` | Fint.Sse/ConnectedState.cs:109-110 | a parsed value lies in the 32-bit signed range; the empty string does not parse; what is accepted is stated by `ParseInt32Sound` and `ParseInt32Complete` |
| `SseText.ParseInt32Sound` | Fint.Sse/ConnectedState.cs:109-110 | an accepted text is optional white space, an optional sign, at least one digit and optional white space, and the value is that of its digits, negated after `-`; any other text is rejected |
| `SseText.ParseInt32Complete` | Fint.Sse/ConnectedState.cs:109-110 | such text is accepted exactly when its value fits in 32 bits, and then with that value |
| `SseText.ParseFormatRoundTrip` | Fint.Sse/ConnectedState.cs:109-113 | every 32-bit integer written in decimal parses back to itself, so a well-formed `retry` value is accepted |
| `LineSplitter.SplitLines` | Fint.Sse/ConnectedState.cs:62 | the splitter; what it returns is pinned down by `SplitRender`, `SplitWellFormed` and `SplitRenderUnique` |
| `LineSplitter.SplitRender` | Fint.Sse/ConnectedState.cs:62 | the lines with their terminators, followed by the unterminated tail, give back the split text |
| `LineSplitter.SplitWellFormed` | Fint.Sse/ConnectedState.cs:62 | no line and no tail holds a line break; a line ended by a lone `\r` is never followed by an empty `\n`-ended line |
| `LineSplitter.SplitRenderUnique` | Fint.Sse/ConnectedState.cs:62 | cutting the rendering of any well-formed split gives that split back, so the splitter is the only well-formed way to cut a text |
| `LineSplitter.SplitStartsWithLF` | Fint.Sse/ConnectedState.cs:62 | the first line is an empty `\n`-ended line exactly when the text starts with `\n` |
| `LineSplitter.SplitCons` | Fint.Sse/ConnectedState.cs:62 | a break-free text, a terminator and what follows split into that line followed by the split of what follows |
| `LineSplitter.SplitAcrossReads` | Fint.Sse/ConnectedState.cs:61-62 | splitting one read and then its tail followed by the next read gives the same lines and tail as splitting both reads at once, unless the cut falls inside a `\r\n` pair |
| `LineSplitter.CrLfCutYieldsExtraLine` | Fint.Sse/ConnectedState.cs:62 | the assumption at work: `"x\r"` then `"\n"` yields the line `x` and an extra empty line, while `"x\r\n"` yields the one line `x` |
| `EventAssembler.SplitField` | Fint.Sse/ConnectedState.cs:81-90 | the field split of a line; its contract is `SplitFieldSpec` |
| `EventAssembler.SplitFieldSpec` | Fint.Sse/ConnectedState.cs:81-90 | the name is the colon-free text before the first `:` and the value is the text after it without leading white space; a line with no `:` is all name with an empty value |
| `EventAssembler.SplitFieldOf` | Fint.Sse/ConnectedState.cs:83-88 | `name:raw`, for a colon-free name, splits into `name` and `raw` without its leading white space |
| `EventAssembler.IsComment` | Fint.Sse/ConnectedState.cs:74 | a line is a comment when it starts with `:`; what a comment does is stated by `CommentLineIgnored` |
| `EventAssembler.CommentLineIgnored` | Fint.Sse/ConnectedState.cs:74-78 | a line `:` followed by anything changes nothing and dispatches nothing, with or without an event in progress |
| `EventAssembler.ApplyField` | Fint.Sse/ConnectedState.cs:92-120 | the four field branches; each is stated by `EventFieldSetsType`, `DataFieldReplacesData`, `IdFieldSetsId`, `RetryFieldNeedsInteger` and `UnknownFieldIgnored` |
| `EventAssembler.ApplyLine` | Fint.Sse/ConnectedState.cs:67-121 | a blank line dispatches the event in progress, if any, and leaves none; no other line dispatches; a comment never changes the event in progress; an event is dropped only by being dispatched |
| `EventAssembler.FieldLine` | Fint.Sse/ConnectedState.cs:79-121 | a line `name:raw` is never blank and never a comment when the name is not empty; it applies the field `name` with the trimmed value |
| `EventAssembler.EventFieldSetsType` | Fint.Sse/ConnectedState.cs:92-96 | `event` in any case sets the type to the trimmed value, creating the event if needed and keeping its other fields |
| `EventAssembler.DataFieldReplacesData` | Fint.Sse/ConnectedState.cs:97-101 | `data` sets the data to exactly the trimmed value plus `"\n"`, replacing earlier data and keeping the other fields |
| `EventAssembler.IdFieldSetsId` | Fint.Sse/ConnectedState.cs:102-106 | `id` sets the last event id to the trimmed value, creating the event if needed |
| `EventAssembler.RetryFieldNeedsInteger` | Fint.Sse/ConnectedState.cs:107-115 | `retry` sets the retry, creating the event, only when the value parses as a 32-bit integer; otherwise the state is unchanged |
| `EventAssembler.UnknownFieldIgnored` | Fint.Sse/ConnectedState.cs:116-120 | a field with any other name changes nothing and dispatches nothing |
| `EventAssembler.BareNameHasEmptyValue` | Fint.Sse/ConnectedState.cs:89-90 | a line without `:` acts as the same name with an empty value |
| `EventAssembler.BlankIsNoField` | Fint.Sse/ConnectedState.cs:68 | a white-space-only line never names a known field |
| `EventAssembler.BlankWithoutEventIsNoop` | Fint.Sse/ConnectedState.cs:68-120 | with no event in progress, a blank line changes nothing and dispatches nothing |
| `EventAssembler.FeedLines` | Fint.Sse/ConnectedState.cs:63-122 | the loop dispatches at most one event per blank line |
| `EventAssembler.FeedLinesAppend` | Fint.Sse/ConnectedState.cs:63-122 | feeding two runs of lines one after the other is feeding their concatenation, and the dispatched events keep line order |
| `EventAssembler.FeedLinesCons` | Fint.Sse/ConnectedState.cs:63-122 | feeding a line and then the rest dispatches that line's event, if any, ahead of the rest's |
| `EventAssembler.FeedPrefix` | Fint.Sse/ConnectedState.cs:63-65 | feeding only the first `k` lines dispatches a prefix of what feeding them all dispatches |
| `EventAssembler.FeedText` | Fint.Sse/ConnectedState.cs:61-62 | the new carried-over text holds no line break and is a suffix of the old remainder followed by the chunk |
| `EventAssembler.FeedAcrossReads` | Fint.Sse/ConnectedState.cs:61-62 | two reads dispatch the same events, in the same order, and leave the same state as one read of their concatenation, unless the cut falls inside a `\r\n` pair |
| `EventAssembler.FeedChunks` | Fint.Sse/ConnectedState.cs:16 | successive reads of one connection, the carried-over text passed from each to the next; compared with one read of the whole text by `ChunkingInvariance` |
| `EventAssembler.ChunkingInvariance` | Fint.Sse/ConnectedState.cs:16 | however the stream is cut into reads, the events and the final state are those of one read of the whole text, provided no cut falls inside a `\r\n` pair |
| `ConnectionStates.Projection` | Fint.Sse/ConnectingState.cs:18 | CLOSED exactly for disconnected, CONNECTING exactly for connecting, OPEN exactly for connected, as the `State` properties of the three classes return (also Fint.Sse/ConnectedState.cs:20 and Fint.Sse/DisconnectedState.cs:15-18) |
| `ConnectionStates.NewDisconnected` | Fint.Sse/DisconnectedState.cs:20-27 | fails with a null-argument error exactly when the URL is null; otherwise a disconnected state with the given configuration |
| `ConnectionStates.NewConnecting` | Fint.Sse/ConnectingState.cs:20-28 | a null URL is rejected first, then a null factory; otherwise a connecting state with the given configuration |
| `ConnectionStates.NewConnected` | Fint.Sse/ConnectedState.cs:15-27 | a connected state holding the response and configuration, with no event in progress and no carried-over text |
| `ConnectionStates.StepDisconnected` | Fint.Sse/DisconnectedState.cs:29-35 | with cancellation seen it parks in a disconnected state with the identical configuration, otherwise it yields connecting with that configuration; never connected, no callback |
| `ConnectionStates.StepConnecting` | Fint.Sse/ConnectingState.cs:35-51 | connected holding the response exactly when the request completed, no cancellation is seen and the status is OK; disconnected with the original configuration otherwise; never connecting |
| `ConnectionStates.LinesProcessed` | Fint.Sse/ConnectedState.cs:63-65 | the loop handles lines until the first one before which cancellation is seen, and runs to the end if cancellation never is |
| `ConnectionStates.ConnectedRun` | Fint.Sse/ConnectedState.cs:41-142 | no bytes, a failed read or cancellation after the read leave the fields unchanged and dispatch nothing; bytes without cancellation are exactly one `FeedText` and keep the state; the state is kept exactly when bytes arrived and no check up to the one after the line loop (lines 51, 65 and 124) saw cancellation |
| `ConnectionStates.StepConnected` | Fint.Sse/ConnectedState.cs:124-142 | stays connected with the same response and configuration, or yields disconnected aimed at the response URI; a 0-byte read, a read failure or cancellation after the read disconnects without dispatching; a chunk without cancellation yields the same state holding `FeedText`'s event in progress and carried-over text, with `FeedText`'s events; a cancellation seen before any line or after the loop yields disconnected aimed at the response URI |
| `ConnectionStates.Step` | Fint.Sse/ConnectingState.cs:30-52 | one `Run` of whichever state is current (also Fint.Sse/DisconnectedState.cs:29-35 and Fint.Sse/ConnectedState.cs:29-149): disconnected never yields connected, connecting and connected never yield connecting, and only a connected state dispatches |
| `ConnectionStates.StepKeepsConfiguration` | Fint.Sse/ConnectedState.cs:142 | from a fully configured state a run never faults and passes headers, factory and token source on unchanged; only leaving the connected state changes the URL, to the response URI |
| `ConnectionStates.Iterate` | Fint.Sse/DisconnectedState.cs:29-35 | runs of the current state in a row under fixed outcomes, stopping at a constructor fault; stated by `ParkedStaysParked` |
| `ConnectionStates.ParkedStaysParked` | Fint.Sse/DisconnectedState.cs:31-32 | once cancellation is requested, any number of runs of a disconnected state yield that same state |
| `ConnectionStates.ConnectionCycle` | Fint.Sse/ConnectingState.cs:37-50 | the observed cycle is CONNECTING, OPEN, CLOSED, then CONNECTING again, or CLOSED once cancellation is requested |
| `ConnectionStates.CancellationTruncates` | Fint.Sse/ConnectedState.cs:63-65 | breaking out of the line loop keeps the carried-over text and dispatches a prefix of what the whole chunk would dispatch |
| `Connected.ConnectedState.constructor` | Fint.Sse/ConnectedState.cs:22-27 | a new object is the connected state with no event in progress and no carried-over text |
| `Connected.ConnectedState.ObservableState` | Fint.Sse/ConnectedState.cs:20 | the object projects to OPEN |
| `Connected.ConnectedState.HandleLine` | Fint.Sse/ConnectedState.cs:67-121 | the branches of the loop body update `mSse` and call the callback exactly as one `ApplyLine` does |
| `Connected.ConnectedState.Run` | Fint.Sse/ConnectedState.cs:29-149 | the new fields, the callback calls and the returned state are those of `ConnectedRun` and `StepConnected` for the same read and cancellation |
| `MessageExamples.OneEventWith` | Fint.Sse.Tests/MessagesTest.cs:47-94 | `"event: test\n\n"`, `"event: test\r\r"` and `"event: test\r\n\r\n"` (two terminators of one style) each dispatch exactly one event, of type `"test"` |
| `MessageExamples.TwoLines` | Fint.Sse.Tests/MessagesTest.cs:95-111 | `"event: test\ndata: simple\n\n"` dispatches one event with type `"test"` and data `"simple\n"` |
| `MessageExamples.MixedSeparators` | Fint.Sse.Tests/MessagesTest.cs:112-128 | `"event: test\rdata: simple\n\n"` dispatches that same event |
| `MessageExamples.DataSentInParts` | Fint.Sse.Tests/MessagesTest.cs:129-147 | `"event: tes"` and then `"t\ndata: simple\n\n"` dispatch that same single event and leave nothing behind |
| `MessageExamples.ThreeEventsOverSevenReads` | Fint.Sse.Tests/MessagesTest.cs:148-179 | the seven reads of the multiple-events test dispatch exactly three events, in order, for any field values |
| `MessageExamples.TrailingSpaceKept` | Fint.Sse.Tests/MessagesTest.cs:164 | `"id:2 "` gives the id `"2 "`, with its trailing space |
| `MessageExamples.CrLfCutSplitsEvent` | Fint.Sse/ConnectedState.cs:61-62 | a `\r\n` pair cut between two reads ends the event early, giving two events where the same text in one read gives one |

## Left out

- HTTP and transport (`IWebRequester.Get`, `IServerResponse`,
  `GetResponseStream`, `ReadAsync`): the outcome of the request (completed
  with a response, faulted, cancelled) and of the read (a decoded chunk,
  zero bytes, an exception) are inputs to each step.
- `Task`, `ContinueWith`, `Task.Factory.StartNew` and `Wait(cancelToken)`:
  asynchronous plumbing. Cancellation is the first checkpoint that sees
  the token. Later checkpoints see it too, since a token cannot be
  un-cancelled. The checkpoints are line 51, line 65 before each line and
  line 124 of Fint.Sse/ConnectedState.cs, line 37 of
  Fint.Sse/ConnectingState.cs and line 31 of Fint.Sse/DisconnectedState.cs.
- The token service's internals: the token source is an opaque value
  carried along.
- UTF-8 decoding (Fint.Sse/ConnectedState.cs:60) and the 8 KiB read buffer
  (line 40): chunks arrive as decoded strings. A multi-byte character cut
  between two reads is therefore not modelled.
- `String.Compare(..., true)`: modelled as ASCII case folding, not
  culture-sensitive comparison.
- `int.TryParse`: modelled as optional leading and trailing white space
  (space and U+0009 to U+000D), an optional `+` or `-`, at least one
  decimal digit and a value inside the 32-bit range. Culture-specific
  signs and trailing NUL characters are not modelled.
- `ServerSentEvent` is a value (`EventAssembler.Event`) rather than a
  mutable object. The source drops its reference to the event right after
  handing it to the callback, so nothing in the modelled code can see the
  difference. Its defaults (empty type and data, no id, no retry) are
  assumed, because its class is not part of this model.
- The driver (`EventSource.Start`, its run loop and its state-change and
  event notifications) is not part of this model. `ConnectionStates.Iterate`
  runs steps in a row under fixed outcomes, only to state that a parked
  state stays parked.
- The subscriber callback is a function that cannot fail. In the source a
  callback that throws at Fint.Sse/ConnectedState.cs:71 is caught at line
  132: the rest of the lines are skipped, `mSse` is not cleared and the
  run yields a disconnected state. The model has no such outcome.
- A throw from `GetResponseStream()` or `ReadAsync(...)` at
  Fint.Sse/ConnectedState.cs:38 and 41, which lie outside every `try`,
  faults the run's task rather than disconnecting. The model has only
  `ReadFailed`, the exception `taskRead.Result` rethrows inside the
  `try`, which disconnects.
- Stream and response disposal, which is commented out at
  Fint.Sse/ConnectedState.cs:138-141, and the logging calls.
- `StringSplitter.SplitIntoLines` is not part of this model.
  `LineSplitter.SplitLines` stands for it, with the end-of-buffer `\r`
  assumption stated above.
