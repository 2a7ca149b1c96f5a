/** The inputs and expected outcomes of the client's message tests, proved
    of the model: what one connection dispatches for the texts the mocked
    stream delivers. */
module MessageExamples {
  import opened Wrappers
  import opened SseText
  import opened LineSplitter
  import opened EventAssembler

  /** `TrimStart` of one optional space and a word that does not start
      with white space. */
  lemma TrimOneSpace(word: string)
    requires |word| > 0 && !IsWhiteSpace(word[0])
    ensures TrimStart(" " + word) == word
    ensures TrimStart(word) == word
  {
    assert (" " + word)[0] == ' ';
    assert (" " + word)[1..] == word;
  }

  lemma EventLine(sse: Option<Event>, raw: string, value: string)
    requires TrimStart(raw) == value
    ensures ApplyLine(sse, "event:" + raw) == LineEffect(Some(Current(sse).(eventType := value)), None)
  {
    assert "event" + ":" + raw == "event:" + raw;
    EventFieldSetsType(sse, "event", raw);
  }

  lemma DataLine(sse: Option<Event>, raw: string, value: string)
    requires TrimStart(raw) == value
    ensures ApplyLine(sse, "data:" + raw) == LineEffect(Some(Current(sse).(data := value + "\n")), None)
  {
    assert "data" + ":" + raw == "data:" + raw;
    DataFieldReplacesData(sse, "data", raw);
  }

  lemma IdLine(sse: Option<Event>, raw: string, value: string)
    requires TrimStart(raw) == value
    ensures ApplyLine(sse, "id:" + raw) == LineEffect(Some(Current(sse).(lastEventId := Some(value))), None)
  {
    assert "id" + ":" + raw == "id:" + raw;
    IdFieldSetsId(sse, "id", raw);
  }

  /** The lines `"event: test"` and `""` dispatch one event of type
      `"test"` and leave none in progress. */
  lemma EventTestThenBlank()
    ensures FeedLines(None, ["event: test", ""]) == Feed(None, [NewEvent.(eventType := "test")])
  {
    assert "event:" + " test" == "event: test";
    assert TrimStart(" test") == "test" by { TrimOneSpace("test"); }
    EventLine(None, " test", "test");
    FeedLinesCons(None, "event: test", [""]);
    FeedLinesCons(Some(NewEvent.(eventType := "test")), "", []);
  }

  lemma OneEventSplit(t: Terminator)
    ensures var tt := TerminatorText(t);
            SplitLines("event: test" + tt + tt) == Split([Line("event: test", t), Line("", t)], "")
  {
    var tt := TerminatorText(t);
    var lines := [Line("event: test", t), Line("", t)];
    assert Render(lines[1..]) == "" + tt + [];
    assert Render(lines) + "" == "event: test" + tt + tt;
    assert WellFormed(Split(lines, ""));
    SplitRenderUnique(Split(lines, ""));
  }

  /** `"event: test"` ended by two terminators of the same style, `\n\n`,
      `\r\r` or `\r\n\r\n`, dispatches exactly one event, of type `"test"`. */
  lemma OneEventWith(t: Terminator)
    ensures var text := "event: test" + TerminatorText(t) + TerminatorText(t);
            FeedText(None, "", text) == Assembly(None, "", [NewEvent.(eventType := "test")])
  {
    var tt := TerminatorText(t);
    var text := "event: test" + tt + tt;
    assert "" + text == text;
    var lines := [Line("event: test", t), Line("", t)];
    assert Contents(lines) == ["event: test", ""];
    OneEventSplit(t);
    EventTestThenBlank();
  }

  // ---------------------------------------------------------------------
  // Texts of line-feed-ended lines

  /** Lines each followed by a line feed. */
  function JoinLF(cs: seq<string>): string {
    if cs == [] then "" else cs[0] + "\n" + JoinLF(cs[1..])
  }

  lemma {:induction false} SplitJoinLF(cs: seq<string>, rest: string)
    requires forall i :: 0 <= i < |cs| ==> NoBreak(cs[i])
    requires NoBreak(rest)
    ensures Contents(SplitLines(JoinLF(cs) + rest).lines) == cs
    ensures SplitLines(JoinLF(cs) + rest).rest == rest
    decreases |cs|
  {
    if cs == [] {
      assert JoinLF(cs) + rest == rest;
      assert FirstBreak(rest) == |rest|;
    } else {
      var after := JoinLF(cs[1..]) + rest;
      var text := JoinLF(cs) + rest;
      AppendAssoc(cs[0] + "\n", JoinLF(cs[1..]), rest);
      assert text == cs[0] + TerminatorText(LF) + after;
      SplitCons(cs[0], LF, after);
      SplitJoinLF(cs[1..], rest);
      var tail := SplitLines(after).lines;
      var lines := [Line(cs[0], LF)] + tail;
      assert SplitLines(text).lines == lines;
      assert lines[1..] == tail;
      assert Contents(lines) == [cs[0]] + cs[1..];
      assert [cs[0]] + cs[1..] == cs;
    }
  }

  /** Feeding a chunk of line-feed-ended lines followed by a tail. */
  lemma FeedJoinLF(sse: Option<Event>, remaining: string, chunk: string, cs: seq<string>, rest: string)
    requires forall i :: 0 <= i < |cs| ==> NoBreak(cs[i])
    requires NoBreak(rest)
    requires remaining + chunk == JoinLF(cs) + rest
    ensures var f := FeedLines(sse, cs);
            FeedText(sse, remaining, chunk) == Assembly(f.sse, rest, f.dispatched)
  {
    SplitJoinLF(cs, rest);
  }

  /** A first line with any terminator, then line-feed-ended lines. */
  lemma FeedLeadThenJoinLF(sse: Option<Event>, remaining: string, chunk: string,
                           lead: string, t: Terminator, cs: seq<string>, rest: string)
    requires NoBreak(lead)
    requires forall i :: 0 <= i < |cs| ==> NoBreak(cs[i])
    requires NoBreak(rest)
    requires t == CR ==> !(|JoinLF(cs) + rest| > 0 && (JoinLF(cs) + rest)[0] == '\n')
    requires remaining + chunk == lead + TerminatorText(t) + (JoinLF(cs) + rest)
    ensures var f := FeedLines(sse, [lead] + cs);
            FeedText(sse, remaining, chunk) == Assembly(f.sse, rest, f.dispatched)
  {
    var after := JoinLF(cs) + rest;
    var tail := SplitLines(after).lines;
    SplitCons(lead, t, after);
    SplitJoinLF(cs, rest);
    assert Contents([Line(lead, t)] + tail) == [lead] + cs by {
      assert ([Line(lead, t)] + tail)[1..] == tail;
    }
  }

  // ---------------------------------------------------------------------
  // Two fields

  const TestSimple: Event := Event("test", "simple\n", None, None)

  /** A blank line dispatches the event in progress. */
  lemma BlankDispatches(e: Event)
    ensures ApplyLine(Some(e), "") == LineEffect(None, Some(e))
  {
    assert IsBlank("");
  }

  /** A data line and a blank line dispatch the event in progress with
      that data. */
  lemma DataThenBlank(e: Event, raw: string, value: string)
    requires TrimStart(raw) == value
    ensures FeedLines(Some(e), ["data:" + raw, ""]) == Feed(None, [e.(data := value + "\n")])
  {
    var e2 := e.(data := value + "\n");
    DataLine(Some(e), raw, value);
    assert FeedLines(Some(e2), [""]) == Feed(None, [e2]) by {
      assert [""] == [""] + [];
      BlankDispatches(e2);
      FeedLinesCons(Some(e2), "", []);
    }
    assert ["data:" + raw, ""] == ["data:" + raw] + [""];
    FeedLinesCons(Some(e), "data:" + raw, [""]);
  }

  /** An event line, a data line and a blank line dispatch one event. */
  lemma EventDataThenBlank(sse: Option<Event>, rawType: string, eventType: string, rawData: string, data: string)
    requires TrimStart(rawType) == eventType && TrimStart(rawData) == data
    ensures FeedLines(sse, ["event:" + rawType, "data:" + rawData, ""])
         == Feed(None, [Current(sse).(eventType := eventType, data := data + "\n")])
  {
    var first := "event:" + rawType;
    var rest := ["data:" + rawData, ""];
    var e := Current(sse).(eventType := eventType);
    var done := e.(data := data + "\n");
    assert done == Current(sse).(eventType := eventType, data := data + "\n");
    var eff := ApplyLine(sse, first);
    assert eff == LineEffect(Some(e), None) by {
      EventLine(sse, rawType, eventType);
    }
    assert Emitted(eff) == [];
    assert FeedLines(Some(e), rest) == Feed(None, [done]) by {
      DataThenBlank(e, rawData, data);
    }
    assert [first] + rest == ["event:" + rawType, "data:" + rawData, ""];
    FeedLinesCons(sse, first, rest);
  }

  /** A single line that is not blank dispatches nothing. */
  lemma OneLine(sse: Option<Event>, line: string)
    ensures FeedLines(sse, [line]) == Feed(ApplyLine(sse, line).sse, Emitted(ApplyLine(sse, line)))
  {
    assert [line] == [line] + [];
    FeedLinesCons(sse, line, []);
  }

  lemma TestSimpleLines()
    ensures FeedLines(None, ["event: test", "data: simple", ""]) == Feed(None, [TestSimple])
  {
    assert "event:" + " test" == "event: test";
    assert "data:" + " simple" == "data: simple";
    assert "simple" + "\n" == "simple\n";
    assert TrimStart(" test") == "test" by { TrimOneSpace("test"); }
    assert TrimStart(" simple") == "simple" by { TrimOneSpace("simple"); }
    EventDataThenBlank(None, " test", "test", " simple", "simple");
  }

  /** `"event: test\ndata: simple\n\n"` dispatches one event of type
      `"test"` with data `"simple\n"`. */
  lemma TwoLines()
    ensures FeedText(None, "", "event: test\ndata: simple\n\n") == Assembly(None, "", [TestSimple])
  {
    assert "" + "event: test\ndata: simple\n\n" == JoinLF(["event: test", "data: simple", ""]) + "";
    FeedJoinLF(None, "", "event: test\ndata: simple\n\n", ["event: test", "data: simple", ""], "");
    TestSimpleLines();
  }

  /** A carriage return after the first field gives the same event. */
  lemma MixedSeparators()
    ensures FeedText(None, "", "event: test\rdata: simple\n\n") == Assembly(None, "", [TestSimple])
  {
    assert "" + "event: test\rdata: simple\n\n"
        == "event: test" + TerminatorText(CR) + (JoinLF(["data: simple", ""]) + "");
    FeedLeadThenJoinLF(None, "", "event: test\rdata: simple\n\n", "event: test", CR, ["data: simple", ""], "");
    assert ["event: test"] + ["data: simple", ""] == ["event: test", "data: simple", ""];
    TestSimpleLines();
  }

  /** `"event: tes"` and then `"t\ndata: simple\n\n"`, in two reads,
      dispatch the same single event as one read of the whole text. */
  lemma DataSentInParts()
    ensures var first := FeedText(None, "", "event: tes");
            var second := FeedText(first.sse, first.remaining, "t\ndata: simple\n\n");
            first.dispatched + second.dispatched == [TestSimple]
            && second.sse == None && second.remaining == ""
  {
    assert "event: tes" + "t\ndata: simple\n\n" == "event: test\ndata: simple\n\n";
    assert !CutsCrLf("" + "event: tes", "t\ndata: simple\n\n");
    FeedAcrossReads(None, "", "event: tes", "t\ndata: simple\n\n");
    TwoLines();
  }

  // ---------------------------------------------------------------------
  // Three events over seven reads

  /** A field line `name:raw` never holds a line break when `raw` does not. */
  lemma FieldNoBreak(name: string, raw: string)
    requires name == "id:" || name == "event:" || name == "data:"
    requires NoBreak(raw)
    ensures NoBreak(name + raw)
  {
    assert NoBreak(name);
    assert forall i :: 0 <= i < |name + raw| ==> (name + raw)[i] == if i < |name| then name[i] else raw[i - |name|];
  }

  /** An `id` line in front of lines whose outcome is known. */
  lemma IdThen(sse: Option<Event>, raw: string, value: string, rest: seq<string>, f: Feed)
    requires TrimStart(raw) == value
    requires FeedLines(Some(Current(sse).(lastEventId := Some(value))), rest) == f
    ensures FeedLines(sse, ["id:" + raw] + rest) == f
  {
    IdLine(sse, raw, value);
    FeedLinesCons(sse, "id:" + raw, rest);
  }

  /** A read of whole lines, none carried over before it. */
  lemma FeedWholeLines(sse: Option<Event>, cs: seq<string>, f: Feed)
    requires forall i :: 0 <= i < |cs| ==> NoBreak(cs[i])
    requires FeedLines(sse, cs) == f
    ensures FeedText(sse, "", JoinLF(cs)) == Assembly(f.sse, "", f.dispatched)
  {
    assert "" + JoinLF(cs) == JoinLF(cs) + "";
    FeedJoinLF(sse, "", JoinLF(cs), cs, "");
  }

  lemma WholeEventLines(ri: string, vi: string, rt: string, vt: string, rd: string, vd: string)
    requires TrimStart(ri) == vi && TrimStart(rt) == vt && TrimStart(rd) == vd
    ensures FeedLines(None, ["id:" + ri, "event:" + rt, "data:" + rd, ""])
         == Feed(None, [Event(vt, vd + "\n", Some(vi), None)])
  {
    var rest := ["event:" + rt, "data:" + rd, ""];
    var ev := Event(vt, vd + "\n", Some(vi), None);
    var e := NewEvent.(lastEventId := Some(vi));
    assert Current(Some(e)).(eventType := vt, data := vd + "\n") == ev;
    assert ["id:" + ri] + rest == ["id:" + ri, "event:" + rt, "data:" + rd, ""];
    EventDataThenBlank(Some(e), rt, vt, rd, vd);
    IdThen(None, ri, vi, rest, Feed(None, [ev]));
  }

  /** A read holding a whole event: `id`, `event` and `data` lines and a
      blank line. */
  lemma WholeEventRead(ri: string, vi: string, rt: string, vt: string, rd: string, vd: string)
    requires TrimStart(ri) == vi && TrimStart(rt) == vt && TrimStart(rd) == vd
    requires NoBreak(ri) && NoBreak(rt) && NoBreak(rd)
    ensures FeedText(None, "", JoinLF(["id:" + ri, "event:" + rt, "data:" + rd, ""]))
         == Assembly(None, "", [Event(vt, vd + "\n", Some(vi), None)])
  {
    FieldNoBreak("id:", ri);
    FieldNoBreak("event:", rt);
    FieldNoBreak("data:", rd);
    var lines := ["id:" + ri, "event:" + rt, "data:" + rd, ""];
    assert forall i :: 0 <= i < |lines| ==> NoBreak(lines[i]) by {
      assert NoBreak("");
    }
    WholeEventLines(ri, vi, rt, vt, rd, vd);
    FeedWholeLines(None, lines, Feed(None, [Event(vt, vd + "\n", Some(vi), None)]));
  }

  lemma IdLines(sse: Option<Event>, ri: string, vi: string)
    requires TrimStart(ri) == vi
    ensures FeedLines(sse, ["id:" + ri]) == Feed(Some(Current(sse).(lastEventId := Some(vi))), [])
  {
    IdLine(sse, ri, vi);
    OneLine(sse, "id:" + ri);
  }

  /** A read holding one `id` line. */
  lemma IdRead(sse: Option<Event>, ri: string, vi: string)
    requires TrimStart(ri) == vi && NoBreak(ri)
    ensures FeedText(sse, "", JoinLF(["id:" + ri]))
         == Assembly(Some(Current(sse).(lastEventId := Some(vi))), "", [])
  {
    FieldNoBreak("id:", ri);
    IdLines(sse, ri, vi);
    FeedWholeLines(sse, ["id:" + ri], Feed(Some(Current(sse).(lastEventId := Some(vi))), []));
  }

  lemma EventLines(sse: Option<Event>, rt: string, vt: string)
    requires TrimStart(rt) == vt
    ensures FeedLines(sse, ["event:" + rt]) == Feed(Some(Current(sse).(eventType := vt)), [])
  {
    EventLine(sse, rt, vt);
    OneLine(sse, "event:" + rt);
  }

  /** A read holding one `event` line. */
  lemma EventRead(sse: Option<Event>, rt: string, vt: string)
    requires TrimStart(rt) == vt && NoBreak(rt)
    ensures FeedText(sse, "", JoinLF(["event:" + rt]))
         == Assembly(Some(Current(sse).(eventType := vt)), "", [])
  {
    FieldNoBreak("event:", rt);
    EventLines(sse, rt, vt);
    FeedWholeLines(sse, ["event:" + rt], Feed(Some(Current(sse).(eventType := vt)), []));
  }

  /** A read holding a `data` line without its line break: it is only
      carried over. */
  lemma UnterminatedDataRead(sse: Option<Event>, rd: string)
    requires NoBreak(rd)
    ensures FeedText(sse, "", "data:" + rd) == Assembly(sse, "data:" + rd, [])
  {
    FieldNoBreak("data:", rd);
    assert "" + ("data:" + rd) == JoinLF([]) + ("data:" + rd);
    FeedJoinLF(sse, "", "data:" + rd, [], "data:" + rd);
  }

  /** Lines each followed by a line feed, one line at a time. */
  lemma JoinLFCons(c: string, cs: seq<string>)
    ensures JoinLF([c] + cs) == c + "\n" + JoinLF(cs)
  {
    assert ([c] + cs)[1..] == cs;
  }

  lemma TwoLineFeeds(line: string)
    ensures line + "\n\n" == JoinLF([line, ""]) + ""
  {
    JoinLFCons("", []);
    assert [""] + [] == [""];
    assert JoinLF([""]) == "\n";
    JoinLFCons(line, [""]);
    assert [line] + [""] == [line, ""];
    AppendAssoc(line, "\n", "\n");
  }

  /** Two line feeds after a carried-over `data` line end the event. */
  lemma EndOfDataRead(e: Event, rd: string, vd: string)
    requires TrimStart(rd) == vd && NoBreak(rd)
    ensures FeedText(Some(e), "data:" + rd, "\n\n") == Assembly(None, "", [e.(data := vd + "\n")])
  {
    FieldNoBreak("data:", rd);
    TwoLineFeeds("data:" + rd);
    FeedJoinLF(Some(e), "data:" + rd, "\n\n", ["data:" + rd, ""], "");
    DataThenBlank(e, rd, vd);
  }

  /** A read holding the rest of an event: `event` and `data` lines and a
      blank line. */
  lemma EventDataRead(sse: Option<Event>, rt: string, vt: string, rd: string, vd: string)
    requires TrimStart(rt) == vt && TrimStart(rd) == vd
    requires NoBreak(rt) && NoBreak(rd)
    ensures FeedText(sse, "", JoinLF(["event:" + rt, "data:" + rd, ""]))
         == Assembly(None, "", [Current(sse).(eventType := vt, data := vd + "\n")])
  {
    FieldNoBreak("event:", rt);
    FieldNoBreak("data:", rd);
    var lines := ["event:" + rt, "data:" + rd, ""];
    assert forall i :: 0 <= i < |lines| ==> NoBreak(lines[i]) by {
      assert NoBreak("");
    }
    EventDataThenBlank(sse, rt, vt, rd, vd);
    FeedWholeLines(sse, lines, Feed(None, [Current(sse).(eventType := vt, data := vd + "\n")]));
  }


  /** The text of a read holding a whole event. */
  function WholeEventText(ri: string, rt: string, rd: string): string {
    JoinLF(["id:" + ri, "event:" + rt, "data:" + rd, ""])
  }

  /** The text of a read holding one `id` line. */
  function IdText(ri: string): string {
    JoinLF(["id:" + ri])
  }

  /** The text of a read holding one `event` line. */
  function EventText(rt: string): string {
    JoinLF(["event:" + rt])
  }

  /** The text of a read holding the rest of an event. */
  function EventDataText(rt: string, rd: string): string {
    JoinLF(["event:" + rt, "data:" + rd, ""])
  }

  /** The seven reads of the multiple-events test, for any field values:
      a whole event; then `id`, `event`, an unterminated `data` line and
      the two line feeds that end it, each in its own read; then `id` and
      the rest of a third event. */
  function SevenReads(ri1: string, rt1: string, rd1: string, ri2: string, rt2: string, rd2: string,
                      ri3: string, rt3: string, rd3: string): seq<string>
  {
    [WholeEventText(ri1, rt1, rd1), IdText(ri2), EventText(rt2), "data:" + rd2, "\n\n",
     IdText(ri3), EventDataText(rt3, rd3)]
  }

  /** One more read fed after earlier reads whose outcome is known. */
  lemma FeedChunksStep(chunks: seq<string>, chunk: string, before: Assembly, a: Assembly)
    requires FeedChunks(None, "", chunks) == before
    requires FeedText(before.sse, before.remaining, chunk) == a
    ensures FeedChunks(None, "", chunks + [chunk]) == Assembly(a.sse, a.remaining, before.dispatched + a.dispatched)
  {
    assert (chunks + [chunk])[..|chunks|] == chunks;
  }

  /** The fifth read ends the second event, whose `id` and type came in earlier reads. */
  lemma SecondEventEnds(s3: Event, rd2: string, vd2: string, vt2: string, vi2: string)
    requires s3 == Event(vt2, "", Some(vi2), None)
    requires TrimStart(rd2) == vd2 && NoBreak(rd2)
    ensures FeedText(Some(s3), "data:" + rd2, "\n\n")
         == Assembly(None, "", [Event(vt2, vd2 + "\n", Some(vi2), None)])
  {
    assert s3.(data := vd2 + "\n") == Event(vt2, vd2 + "\n", Some(vi2), None);
    EndOfDataRead(s3, rd2, vd2);
  }

  /** The seventh read completes the third event, whose `id` came in the read before. */
  lemma ThirdEventRead(s6: Event, rt3: string, vt3: string, rd3: string, vd3: string, vi3: string)
    requires s6 == NewEvent.(lastEventId := Some(vi3))
    requires TrimStart(rt3) == vt3 && TrimStart(rd3) == vd3 && NoBreak(rt3) && NoBreak(rd3)
    ensures FeedText(Some(s6), "", EventDataText(rt3, rd3))
         == Assembly(None, "", [Event(vt3, vd3 + "\n", Some(vi3), None)])
  {
    assert Current(Some(s6)).(eventType := vt3, data := vd3 + "\n") == Event(vt3, vd3 + "\n", Some(vi3), None);
    EventDataRead(Some(s6), rt3, vt3, rd3, vd3);
  }

  /** The seven reads dispatch exactly three events, in order. The `id`
      given in its own read before the second event's type and data is
      kept for that event, and each value is the raw text after the colon
      with its leading white space removed. */
  lemma ThreeEventsOverSevenReads(
      ri1: string, vi1: string, rt1: string, vt1: string, rd1: string, vd1: string,
      ri2: string, vi2: string, rt2: string, vt2: string, rd2: string, vd2: string,
      ri3: string, vi3: string, rt3: string, vt3: string, rd3: string, vd3: string)
    requires TrimStart(ri1) == vi1 && TrimStart(rt1) == vt1 && TrimStart(rd1) == vd1
    requires TrimStart(ri2) == vi2 && TrimStart(rt2) == vt2 && TrimStart(rd2) == vd2
    requires TrimStart(ri3) == vi3 && TrimStart(rt3) == vt3 && TrimStart(rd3) == vd3
    requires NoBreak(ri1) && NoBreak(rt1) && NoBreak(rd1)
    requires NoBreak(ri2) && NoBreak(rt2) && NoBreak(rd2)
    requires NoBreak(ri3) && NoBreak(rt3) && NoBreak(rd3)
    ensures FeedChunks(None, "", SevenReads(ri1, rt1, rd1, ri2, rt2, rd2, ri3, rt3, rd3))
         == Assembly(None, "", [Event(vt1, vd1 + "\n", Some(vi1), None), Event(vt2, vd2 + "\n", Some(vi2), None), Event(vt3, vd3 + "\n", Some(vi3), None)])
  {
    var e1 := Event(vt1, vd1 + "\n", Some(vi1), None);
    var e2 := Event(vt2, vd2 + "\n", Some(vi2), None);
    var e3 := Event(vt3, vd3 + "\n", Some(vi3), None);
    var s2 := NewEvent.(lastEventId := Some(vi2));
    var s3 := Event(vt2, "", Some(vi2), None);
    var s6 := NewEvent.(lastEventId := Some(vi3));
    var r0: seq<string> := [];
    var r1 := r0 + [WholeEventText(ri1, rt1, rd1)];
    var r2 := r1 + [IdText(ri2)];
    var r3 := r2 + [EventText(rt2)];
    var r4 := r3 + ["data:" + rd2];
    var r5 := r4 + ["\n\n"];
    var r6 := r5 + [IdText(ri3)];
    var r7 := r6 + [EventDataText(rt3, rd3)];
    assert SevenReads(ri1, rt1, rd1, ri2, rt2, rd2, ri3, rt3, rd3) == r7;
    // the events accumulate one read at a time
    assert [] + [e1] == [e1] && [e1] + [] == [e1] && [e1] + [e2] == [e1, e2];
    assert [e1, e2] + [] == [e1, e2] && [e1, e2] + [e3] == [e1, e2, e3];
    assert Current(Some(s2)).(eventType := vt2) == s3;

    WholeEventRead(ri1, vi1, rt1, vt1, rd1, vd1);
    FeedChunksStep(r0, WholeEventText(ri1, rt1, rd1), Assembly(None, "", []), Assembly(None, "", [e1]));
    IdRead(None, ri2, vi2);
    FeedChunksStep(r1, IdText(ri2), Assembly(None, "", [e1]), Assembly(Some(s2), "", []));
    EventRead(Some(s2), rt2, vt2);
    FeedChunksStep(r2, EventText(rt2), Assembly(Some(s2), "", [e1]), Assembly(Some(s3), "", []));
    UnterminatedDataRead(Some(s3), rd2);
    FeedChunksStep(r3, "data:" + rd2, Assembly(Some(s3), "", [e1]), Assembly(Some(s3), "data:" + rd2, []));
    SecondEventEnds(s3, rd2, vd2, vt2, vi2);
    FeedChunksStep(r4, "\n\n", Assembly(Some(s3), "data:" + rd2, [e1]), Assembly(None, "", [e2]));
    IdRead(None, ri3, vi3);
    FeedChunksStep(r5, IdText(ri3), Assembly(None, "", [e1, e2]), Assembly(Some(s6), "", []));
    ThirdEventRead(s6, rt3, vt3, rd3, vd3, vi3);
    FeedChunksStep(r6, EventDataText(rt3, rd3), Assembly(Some(s6), "", [e1, e2]), Assembly(None, "", [e3]));
  }

  /** The second event of the multiple-events test sends `"id:2 "`: only
      leading white space is removed, so its id keeps the trailing space. */
  lemma TrailingSpaceKept()
    ensures TrimStart("2 ") == "2 "
    ensures FeedLines(None, ["id:2 "]) == Feed(Some(NewEvent.(lastEventId := Some("2 "))), [])
  {
    TrimOneSpace("2 ");
    assert "id:" + "2 " == "id:2 ";
    IdLine(None, "2 ", "2 ");
    FeedLinesCons(None, "id:2 ", []);
  }

  // ---------------------------------------------------------------------
  // A `\r\n` pair cut by a read boundary

  /** A read ending in the `\r` of a `\r\n` pair: the line is complete. */
  lemma EventLineEndedByCr()
    ensures FeedText(None, "", "event: test\r") == Assembly(Some(NewEvent.(eventType := "test")), "", [])
  {
    var line := "event: test";
    assert SplitLines("") == Split([], "");
    SplitCons(line, CR, "");
    assert "" + "event: test\r" == line + TerminatorText(CR) + "";
    assert Contents([Line(line, CR)]) == [line];
    assert "event:" + " test" == line;
    assert TrimStart(" test") == "test" by { TrimOneSpace("test"); }
    EventLines(None, " test", "test");
  }

  /** A `data` line and a blank line, with no event in progress. */
  lemma DataAloneThenBlank()
    ensures FeedLines(None, ["data: simple", ""]) == Feed(None, [NewEvent.(data := "simple\n")])
  {
    assert "data:" + " simple" == "data: simple";
    assert TrimStart(" simple") == "simple" by { TrimOneSpace("simple"); }
    assert "simple" + "\n" == "simple\n";
    DataThenBlankFromNothing(" simple", "simple");
  }

  lemma DataThenBlankFromNothing(raw: string, value: string)
    requires TrimStart(raw) == value
    ensures FeedLines(None, ["data:" + raw, ""]) == Feed(None, [NewEvent.(data := value + "\n")])
  {
    var e := NewEvent.(data := value + "\n");
    DataLine(None, raw, value);
    assert FeedLines(Some(e), [""]) == Feed(None, [e]) by {
      BlankDispatches(e);
      OneLine(Some(e), "");
    }
    assert ["data:" + raw, ""] == ["data:" + raw] + [""];
    FeedLinesCons(None, "data:" + raw, [""]);
  }

  /** An empty line first dispatches the event in progress; a `data` line
      and a blank line then dispatch a second event. */
  lemma EmptyLineThenData(e: Event)
    ensures FeedLines(Some(e), ["", "data: simple", ""]) == Feed(None, [e, NewEvent.(data := "simple\n")])
  {
    BlankDispatches(e);
    DataAloneThenBlank();
    assert [""] + ["data: simple", ""] == ["", "data: simple", ""];
    FeedLinesCons(Some(e), "", ["data: simple", ""]);
  }

  /** The text of an empty line followed by `"data: simple"` and a blank line. */
  lemma LeadingLfText()
    ensures "" + "\ndata: simple\n\n" == JoinLF(["", "data: simple", ""]) + ""
  {
    TwoLineFeeds("data: simple");
    JoinLFCons("", ["data: simple", ""]);
    assert [""] + ["data: simple", ""] == ["", "data: simple", ""];
  }

  /** The second read: the leading `\n` is an empty line that dispatches
      the event in progress, and the `data` line starts another event. */
  lemma LeadingLfEndsEvent(e: Event)
    ensures FeedText(Some(e), "", "\ndata: simple\n\n")
         == Assembly(None, "", [e, NewEvent.(data := "simple\n")])
  {
    var cs := ["", "data: simple", ""];
    LeadingLfText();
    assert NoBreak("data: simple");
    assert forall i :: 0 <= i < |cs| ==> NoBreak(cs[i]);
    FeedJoinLF(Some(e), "", "\ndata: simple\n\n", cs, "");
    EmptyLineThenData(e);
  }

  /** The same text in one read: the `\r\n` pair ends one line. */
  lemma CrLfWhole()
    ensures FeedText(None, "", "event: test\r\ndata: simple\n\n").dispatched == [TestSimple]
  {
    var text := "event: test\r\ndata: simple\n\n";
    var cs := ["data: simple", ""];
    assert "" + text == "event: test" + TerminatorText(CRLF) + (JoinLF(cs) + "");
    assert NoBreak("data: simple") && NoBreak("event: test");
    FeedLeadThenJoinLF(None, "", text, "event: test", CRLF, cs, "");
    assert ["event: test"] + cs == ["event: test", "data: simple", ""];
    TestSimpleLines();
  }

  /** The consequence of taking a final `\r` as a whole terminator: when
      `"event: test\r"` and `"\ndata: simple\n\n"` arrive in two reads, the
      `\n` is an empty line that ends the first event early, and two events
      are dispatched; the same text in one read yields the single event
      of type `"test"` with data `"simple\n"`. */
  lemma CrLfCutSplitsEvent()
    ensures var first := FeedText(None, "", "event: test\r");
            var second := FeedText(first.sse, first.remaining, "\ndata: simple\n\n");
            first.dispatched + second.dispatched
              == [NewEvent.(eventType := "test"), NewEvent.(data := "simple\n")]
    ensures FeedText(None, "", "event: test\r\ndata: simple\n\n").dispatched == [TestSimple]
  {
    EventLineEndedByCr();
    LeadingLfEndsEvent(NewEvent.(eventType := "test"));
    CrLfWhole();
  }
}
