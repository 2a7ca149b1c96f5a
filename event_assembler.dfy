/** The event assembler inside `ConnectedState.Run`: each complete line
    updates the optional in-progress event, and a blank line hands that
    event to the subscriber and clears it. */
module EventAssembler {
  import opened Wrappers
  import opened SseText
  import opened LineSplitter

  /** `ServerSentEvent`: one assembled message. */
  datatype Event = Event(eventType: string, data: string, lastEventId: Option<string>, retry: Option<int>)

  /** A freshly created event: no type, no data, no id, no retry. */
  const NewEvent: Event := Event("", "", None, None)

  /** The event a field updates: the one in progress, or a new one
      (`mSse = mSse ?? new ServerSentEvent()`). */
  function Current(sse: Option<Event>): Event {
    match sse
    case Some(e) => e
    case None => NewEvent
  }

  /** A field line cut into name and value. */
  datatype Field = Field(name: string, value: string)

  /** Cuts a line at its first `:` into the text before it and the text
      after it without its leading white space; a line without `:` is all
      name and has an empty value. */
  function SplitField(line: string): Field {
    if ':' in line then
      var i := IndexOf(line, ':');
      Field(line[..i], TrimStart(line[i + 1..]))
    else Field(line, "")
  }

  /** The name is the colon-free text before the first `:` and the value
      the rest of the line after it, without its leading white space; a line
      with no `:` is all name. */
  lemma SplitFieldSpec(line: string)
    ensures var f := SplitField(line);
            && ':' !in f.name
            && (':' in line ==> |f.name| < |line| && line[..|f.name|] == f.name && line[|f.name|] == ':'
                                && f.value == TrimStart(line[|f.name| + 1..]))
            && (':' !in line ==> f == Field(line, ""))
  {
    if ':' in line {
      var i := IndexOf(line, ':');
      assert forall j :: 0 <= j < i ==> line[..i][j] == line[j];
    }
  }

  /** The field split of `name:raw`, where `name` holds no colon, is `name`
      and `raw` without its leading white space. */
  lemma SplitFieldOf(name: string, raw: string)
    requires ':' !in name
    ensures SplitField(name + ":" + raw) == Field(name, TrimStart(raw))
  {
    var line := name + ":" + raw;
    assert ':' in line && IndexOf(line, ':') == |name| by {
      IndexOfAfter(name, raw, ':');
    }
    assert line[..|name|] == name;
    assert line[|name| + 1..] == raw;
  }

  /** The first `c` in `prefix + [c] + s` is the one after `prefix` when
      `prefix` has none. */
  lemma IndexOfAfter(prefix: string, s: string, c: char)
    requires c !in prefix
    ensures c in prefix + [c] + s && IndexOf(prefix + [c] + s, c) == |prefix|
  {
    var line := prefix + [c] + s;
    assert line[|prefix|] == c;
  }

  /** `line.StartsWith(":")`. */
  predicate IsComment(line: string) {
    |line| > 0 && line[0] == ':'
  }

  /** What one line does: the new in-progress event, and the event handed
      to the subscriber, if any. */
  datatype LineEffect = LineEffect(sse: Option<Event>, dispatched: Option<Event>)

  /** What a field line does to the event in progress: the four known
      names (in any case) set their field on the current event, creating it
      if needed; a `retry` value that is not a 32-bit integer and any other
      name leave the state as it was. */
  function ApplyField(sse: Option<Event>, f: Field): Option<Event> {
    if EqualsIgnoreCase(f.name, "event") then Some(Current(sse).(eventType := f.value))
    else if EqualsIgnoreCase(f.name, "data") then Some(Current(sse).(data := f.value + "\n"))
    else if EqualsIgnoreCase(f.name, "id") then Some(Current(sse).(lastEventId := Some(f.value)))
    else if EqualsIgnoreCase(f.name, "retry") then
      match ParseInt32(f.value)
      case Some(n) => Some(Current(sse).(retry := Some(n)))
      case None => sse
    else sse
  }

  /** One pass of the line loop in `ConnectedState.Run`. */
  function ApplyLine(sse: Option<Event>, line: string): (r: LineEffect)
    // a blank or white-space-only line dispatches the event in progress,
    // if there is one, and leaves none in progress
    ensures IsBlank(line) ==> r.sse == None && r.dispatched == sse
    // no other line dispatches anything
    ensures !IsBlank(line) ==> r.dispatched == None
    // a comment never creates or changes the event in progress
    ensures IsComment(line) ==> r.sse == sse
    // an event in progress is dropped only by being dispatched
    ensures sse.Some? && r.sse.None? ==> r.dispatched == sse
  {
    if IsBlank(line) && sse.Some? then LineEffect(None, sse)
    else if IsComment(line) then LineEffect(sse, None)
    else LineEffect(ApplyField(sse, SplitField(line)), None)
  }

  /** A line starting with `:` is a comment: it changes nothing and
      dispatches nothing, whatever follows the colon. */
  lemma CommentLineIgnored(sse: Option<Event>, rest: string)
    ensures ApplyLine(sse, ":" + rest) == LineEffect(sse, None)
  {
    var line := ":" + rest;
    assert line[0] == ':' && !IsWhiteSpace(line[0]);
  }

  predicate IsKnownField(name: string) {
    EqualsIgnoreCase(name, "event") || EqualsIgnoreCase(name, "data")
    || EqualsIgnoreCase(name, "id") || EqualsIgnoreCase(name, "retry")
  }

  /** A name equal to a colon-free keyword, ignoring case, holds no colon. */
  lemma KeywordHasNoColon(name: string, keyword: string)
    requires EqualsIgnoreCase(name, keyword) && ':' !in keyword
    ensures ':' !in name
  {
    MatchesPointwise(name, keyword, 0);
  }

  /** A line `name:raw`, with a colon-free name, is never blank and
      dispatches nothing; it applies the field `name` with the value `raw`
      stripped of its leading white space. */
  lemma FieldLine(sse: Option<Event>, name: string, raw: string)
    requires ':' !in name
    ensures ApplyLine(sse, name + ":" + raw) == LineEffect(ApplyField(sse, Field(name, TrimStart(raw))), None)
  {
    var line := name + ":" + raw;
    assert line[|name|] == ':';
    assert !IsBlank(line);
    SplitFieldOf(name, raw);
    if name == [] {
      assert IsComment(line);
    } else {
      assert line[0] == name[0];
    }
  }

  /** `event: v` (name in any case) sets the type to the trimmed value,
      creating the event if needed and keeping its other fields. */
  lemma EventFieldSetsType(sse: Option<Event>, name: string, raw: string)
    requires EqualsIgnoreCase(name, "event")
    ensures var r := ApplyLine(sse, name + ":" + raw);
            r.dispatched == None && r.sse == Some(Current(sse).(eventType := TrimStart(raw)))
  {
    KeywordHasNoColon(name, "event");
    FieldLine(sse, name, raw);
  }

  /** `data: v` sets the data to exactly the trimmed value and a newline,
      replacing any earlier data of the same event. */
  lemma DataFieldReplacesData(sse: Option<Event>, name: string, raw: string)
    requires EqualsIgnoreCase(name, "data")
    ensures var r := ApplyLine(sse, name + ":" + raw);
            r.dispatched == None && r.sse == Some(Current(sse).(data := TrimStart(raw) + "\n"))
  {
    KeywordHasNoColon(name, "data");
    FieldLine(sse, name, raw);
  }

  /** `id: v` sets the last event id to the trimmed value. */
  lemma IdFieldSetsId(sse: Option<Event>, name: string, raw: string)
    requires EqualsIgnoreCase(name, "id")
    ensures var r := ApplyLine(sse, name + ":" + raw);
            r.dispatched == None && r.sse == Some(Current(sse).(lastEventId := Some(TrimStart(raw))))
  {
    KeywordHasNoColon(name, "id");
    FieldLine(sse, name, raw);
  }

  /** `retry: v` sets the retry only when the value parses as a 32-bit
      integer; otherwise it does not even create an event. */
  lemma RetryFieldNeedsInteger(sse: Option<Event>, name: string, raw: string)
    requires EqualsIgnoreCase(name, "retry")
    ensures var r := ApplyLine(sse, name + ":" + raw);
            && r.dispatched == None
            && (ParseInt32(TrimStart(raw)).Some? ==>
                  r.sse == Some(Current(sse).(retry := ParseInt32(TrimStart(raw)))))
            && (ParseInt32(TrimStart(raw)).None? ==> r.sse == sse)
  {
    KeywordHasNoColon(name, "retry");
    assert !EqualsIgnoreCase(name, "event") by {
      assert LowerAscii(name[0]) == 'r';
    }
    FieldLine(sse, name, raw);
  }

  /** A field with any other name changes nothing. */
  lemma UnknownFieldIgnored(sse: Option<Event>, name: string, raw: string)
    requires ':' !in name && !IsKnownField(name)
    ensures ApplyLine(sse, name + ":" + raw) == LineEffect(sse, None)
  {
    FieldLine(sse, name, raw);
  }

  /** A line without a colon acts as its whole text used as the name with an
      empty value (unless it is a blank line ending an event). */
  lemma BareNameHasEmptyValue(sse: Option<Event>, line: string)
    requires ':' !in line
    requires !(IsBlank(line) && sse.Some?)
    ensures ApplyLine(sse, line) == ApplyLine(sse, line + ":")
  {
    assert !IsComment(line) by {
      if |line| > 0 { assert line[0] in line; }
    }
    assert IsBlank(line) ==> !IsKnownField(line) by {
      if IsBlank(line) { BlankIsNoField(line); }
    }
    var f := ApplyField(sse, Field(line, ""));
    assert ApplyLine(sse, line) == LineEffect(f, None);
    FieldLine(sse, line, "");
    assert TrimStart("") == "";
  }

  lemma BlankIsNoField(line: string)
    requires IsBlank(line)
    ensures !IsKnownField(line)
  {
    if |line| > 0 { assert LowerAscii(line[0]) == line[0]; }
  }

  /** With no event in progress, a blank line changes nothing. */
  lemma BlankWithoutEventIsNoop(line: string)
    requires IsBlank(line)
    ensures ApplyLine(None, line) == LineEffect(None, None)
  {
  }

  // ---------------------------------------------------------------------
  // Feeding a sequence of lines

  function Emitted(e: LineEffect): (s: seq<Event>)
    ensures |s| <= 1
  {
    match e.dispatched
    case Some(ev) => [ev]
    case None => []
  }

  /** The state after a run of lines: the event in progress and the events
      dispatched, in line order. */
  datatype Feed = Feed(sse: Option<Event>, dispatched: seq<Event>)

  /** Number of blank lines. */
  function CountBlank(lines: seq<string>): nat {
    if lines == [] then 0
    else CountBlank(lines[..|lines| - 1]) + (if IsBlank(lines[|lines| - 1]) then 1 else 0)
  }

  /** The line loop over a whole sequence of lines, one line after another. */
  function FeedLines(sse: Option<Event>, lines: seq<string>): (r: Feed)
    // only blank lines dispatch, each at most one event
    ensures |r.dispatched| <= CountBlank(lines)
    decreases |lines|
  {
    if lines == [] then Feed(sse, [])
    else
      var before := FeedLines(sse, lines[..|lines| - 1]);
      var e := ApplyLine(before.sse, lines[|lines| - 1]);
      Feed(e.sse, before.dispatched + Emitted(e))
  }

  /** Feeding two runs of lines one after the other is feeding their
      concatenation: the dispatched events keep line order. */
  lemma {:induction false} FeedLinesAppend(sse: Option<Event>, xs: seq<string>, ys: seq<string>)
    ensures var first := FeedLines(sse, xs);
            var second := FeedLines(first.sse, ys);
            FeedLines(sse, xs + ys) == Feed(second.sse, first.dispatched + second.dispatched)
    decreases |ys|
  {
    if ys == [] {
      assert xs + ys == xs;
    } else {
      var ys' := ys[..|ys| - 1];
      FeedLinesAppend(sse, xs, ys');
      assert (xs + ys)[..|xs + ys| - 1] == xs + ys';
      var first := FeedLines(sse, xs);
      var mid := FeedLines(first.sse, ys');
      var e := ApplyLine(mid.sse, ys[|ys| - 1]);
      AppendAssoc(first.dispatched, mid.dispatched, Emitted(e));
    }
  }

  /** Feeding only the first `k` lines dispatches a prefix of what feeding
      all of them dispatches. */
  lemma FeedPrefix(sse: Option<Event>, lines: seq<string>, k: nat)
    requires k <= |lines|
    ensures var part := FeedLines(sse, lines[..k]).dispatched;
            var all := FeedLines(sse, lines).dispatched;
            |part| <= |all| && part == all[..|part|]
  {
    assert lines == lines[..k] + lines[k..];
    FeedLinesAppend(sse, lines[..k], lines[k..]);
  }

  lemma ContentsAppend(xs: seq<Line>, ys: seq<Line>)
    ensures Contents(xs + ys) == Contents(xs) + Contents(ys)
  {
    var l, r := Contents(xs + ys), Contents(xs) + Contents(ys);
    assert |l| == |r|;
    forall i | 0 <= i < |l| ensures l[i] == r[i] {
      if i < |xs| { assert (xs + ys)[i] == xs[i]; } else { assert (xs + ys)[i] == ys[i - |xs|]; }
    }
  }

  // ---------------------------------------------------------------------
  // Feeding a chunk of text

  /** The assembler's state between reads, and what one read dispatched. */
  datatype Assembly = Assembly(sse: Option<Event>, remaining: string, dispatched: seq<Event>)

  /** One chunk read while connected: the carried-over text followed by the
      chunk is split into lines, every complete line is fed to the
      assembler, and the unterminated tail is carried to the next read. */
  function FeedText(sse: Option<Event>, remaining: string, chunk: string): (r: Assembly)
    // the carried-over text never holds a line break
    ensures NoBreak(r.remaining)
    // and it is a suffix of what was split
    ensures |r.remaining| <= |remaining + chunk|
            && r.remaining == (remaining + chunk)[|remaining + chunk| - |r.remaining|..]
  {
    var text := remaining + chunk;
    var sp := SplitLines(text);
    SplitWellFormed(text);
    SplitRender(text);
    var f := FeedLines(sse, Contents(sp.lines));
    Assembly(f.sse, sp.rest, f.dispatched)
  }

  /** Split across reads: feeding `a` and then `b` assembles the same events,
      in the same order, and ends in the same state as feeding `a + b` in
      one read, unless the cut falls inside a `\r\n` pair. */
  lemma FeedAcrossReads(sse: Option<Event>, remaining: string, a: string, b: string)
    requires !CutsCrLf(remaining + a, b)
    ensures var first := FeedText(sse, remaining, a);
            var second := FeedText(first.sse, first.remaining, b);
            FeedText(sse, remaining, a + b)
              == Assembly(second.sse, second.remaining, first.dispatched + second.dispatched)
  {
    AppendAssoc(remaining, a, b);
    SplitAcrossReads(remaining + a, b);
    var s1 := SplitLines(remaining + a);
    var s2 := SplitLines(s1.rest + b);
    ContentsAppend(s1.lines, s2.lines);
    FeedLinesAppend(sse, Contents(s1.lines), Contents(s2.lines));
  }

  /** Feeding one line first, then the others. */
  lemma FeedLinesCons(sse: Option<Event>, line: string, rest: seq<string>)
    ensures var e := ApplyLine(sse, line);
            var after := FeedLines(e.sse, rest);
            FeedLines(sse, [line] + rest) == Feed(after.sse, Emitted(e) + after.dispatched)
  {
    var e := ApplyLine(sse, line);
    assert [line][..0] == [];
    assert FeedLines(sse, [line]) == Feed(e.sse, [] + Emitted(e));
    assert [] + Emitted(e) == Emitted(e);
    FeedLinesAppend(sse, [line], rest);
  }

  function Concat(chunks: seq<string>): string {
    if chunks == [] then [] else Concat(chunks[..|chunks| - 1]) + chunks[|chunks| - 1]
  }

  /** A sequence of reads of one connection, each fed as it arrives. */
  function FeedChunks(sse: Option<Event>, remaining: string, chunks: seq<string>): Assembly
    decreases |chunks|
  {
    if chunks == [] then Assembly(sse, remaining, [])
    else
      var before := FeedChunks(sse, remaining, chunks[..|chunks| - 1]);
      var a := FeedText(before.sse, before.remaining, chunks[|chunks| - 1]);
      Assembly(a.sse, a.remaining, before.dispatched + a.dispatched)
  }

  /** No read begins with `\n` right after the text before it ended in `\r`. */
  predicate NoCrLfCut(remaining: string, chunks: seq<string>)
    decreases |chunks|
  {
    chunks == []
    || (NoCrLfCut(remaining, chunks[..|chunks| - 1])
        && !CutsCrLf(remaining + Concat(chunks[..|chunks| - 1]), chunks[|chunks| - 1]))
  }

  /** However the stream is cut into reads, the assembler dispatches the
      same events and ends in the same state as for one read of the whole
      text, provided no cut falls inside a `\r\n` pair. */
  lemma {:induction false} ChunkingInvariance(sse: Option<Event>, remaining: string, chunks: seq<string>)
    requires NoBreak(remaining) && NoCrLfCut(remaining, chunks)
    ensures FeedChunks(sse, remaining, chunks) == FeedText(sse, remaining, Concat(chunks))
    decreases |chunks|
  {
    if chunks == [] {
      NoReadsFeedNothing(sse, remaining);
    } else {
      ChunkingInvariance(sse, remaining, chunks[..|chunks| - 1]);
      OneMoreRead(sse, remaining, chunks);
    }
  }


  /** With no reads the carried-over text stays as it is. */
  lemma NoReadsFeedNothing(sse: Option<Event>, remaining: string)
    requires NoBreak(remaining)
    ensures FeedText(sse, remaining, Concat([])) == Assembly(sse, remaining, [])
  {
    assert remaining + [] == remaining;
    assert FirstBreak(remaining) == |remaining|;
    assert SplitLines(remaining) == Split([], remaining);
    assert FeedLines(sse, Contents([])) == Feed(sse, []);
  }

  /** The last read, fed after the others, continues the text they make up. */
  lemma OneMoreRead(sse: Option<Event>, remaining: string, chunks: seq<string>)
    requires chunks != []
    requires FeedChunks(sse, remaining, chunks[..|chunks| - 1])
          == FeedText(sse, remaining, Concat(chunks[..|chunks| - 1]))
    requires !CutsCrLf(remaining + Concat(chunks[..|chunks| - 1]), chunks[|chunks| - 1])
    ensures FeedChunks(sse, remaining, chunks) == FeedText(sse, remaining, Concat(chunks))
  {
    var n := |chunks| - 1;
    assert Concat(chunks) == Concat(chunks[..n]) + chunks[n];
    FeedAcrossReads(sse, remaining, Concat(chunks[..n]), chunks[n]);
  }

}
