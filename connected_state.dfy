/** `ConnectedState` as the object it is in the source: the event in
    progress and the carried-over text are fields that `Run` updates in
    place, line by line, before it returns either itself or a disconnected
    state. */
module Connected {
  import opened Wrappers
  import opened LineSplitter
  import opened SseText
  import opened EventAssembler
  import opened ConnectionStates

  /** What `Run` hands back: the same object, or another state (or the
      constructor exception that faults the task). */
  datatype RunResult = KeepThis | MoveTo(next: Result<State, ArgumentNull>)

  class ConnectedState {
    const config: Config
    const response: Response
    /** `mSse`: the event being assembled, if any. */
    var sse: Option<Event>
    /** `mRemainingText`: the unterminated tail of the previous read. */
    var remaining: string

    constructor (response: Response, config: Config)
      ensures Snapshot() == NewConnected(config, response)
    {
      this.config := config;
      this.response := response;
      sse := None;
      remaining := [];
    }

    /** This object as a value of the state machine. */
    function Snapshot(): State
      reads this
    {
      Connected(config, response, sse, remaining)
    }

    /** The `State` property: always OPEN. */
    function ObservableState(): (r: EventSourceState)
      reads this
      ensures r == Projection(Snapshot())
    {
      OPEN
    }

    /** One pass of the line loop: a blank line hands the event in
        progress (if any) to the callback and drops it, a comment is only
        logged, and any other line is cut into a field that updates the
        event in progress, creating it on first touch. */
    method HandleLine(line: string) returns (emitted: seq<Event>)
      modifies this`sse
      ensures sse == ApplyLine(old(sse), line).sse
      ensures emitted == Emitted(ApplyLine(old(sse), line))
    {
      emitted := [];
      if IsBlank(line) && sse.Some? {
        // the callback receives the event, which is then dropped
        emitted := [sse.value];
        sse := None;
      } else if IsComment(line) {
        // a comment is only logged
      } else {
        var field := SplitField(line);
        if EqualsIgnoreCase(field.name, "event") {
          sse := Some(Current(sse).(eventType := field.value));
        } else if EqualsIgnoreCase(field.name, "data") {
          sse := Some(Current(sse).(data := field.value + "\n"));
        } else if EqualsIgnoreCase(field.name, "id") {
          sse := Some(Current(sse).(lastEventId := Some(field.value)));
        } else if EqualsIgnoreCase(field.name, "retry") {
          var parsed := ParseInt32(field.value);
          if parsed.Some? {
            sse := Some(Current(sse).(retry := Some(parsed.value)));
          }
        }
        // any other name is only logged
      }
    }

    /** One read cycle. `read` is how the stream read ended and `cancel`
        which checkpoint first sees cancellation; `dispatched` lists the
        calls of the subscriber callback, in order. */
    method Run(read: ReadOutcome, cancel: Cancellation) returns (result: RunResult, dispatched: seq<Event>)
      modifies this
      ensures var e := ConnectedRun(old(sse), old(remaining), read, cancel);
              && sse == e.sse && remaining == e.remaining && dispatched == e.dispatched
              && (result.KeepThis? <==> e.staysConnected)
      ensures var t := StepConnected(config, response, old(sse), old(remaining), read, cancel);
              && t.dispatched == dispatched
              && t.next == (if result.KeepThis? then Success(Snapshot()) else result.next)
    {
      dispatched := [];
      if SeenAt(cancel, 0) || !read.Chunk? {
        result := MoveTo(NewDisconnected(config.(url := response.responseUri)));
        return;
      }
      var split := SplitLines(remaining + read.text);
      remaining := split.rest;
      var lines := Contents(split.lines);
      var i := 0;
      while i < |lines|
        invariant 0 <= i <= |lines|
        invariant !SeenAt(cancel, i)
        invariant FeedLines(old(sse), lines[..i]) == Feed(sse, dispatched)
        invariant remaining == split.rest
      {
        if SeenAt(cancel, i + 1) {
          break;
        }
        var emitted := HandleLine(lines[i]);
        dispatched := dispatched + emitted;
        assert lines[..i + 1][..i] == lines[..i];
        i := i + 1;
      }
      assert i == LinesProcessed(cancel, |lines|);
      if SeenAt(cancel, |lines| + 1) {
        result := MoveTo(NewDisconnected(config.(url := response.responseUri)));
      } else {
        result := KeepThis;
      }
    }
  }
}
