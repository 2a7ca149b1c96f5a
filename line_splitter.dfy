/** The line splitter the connected state calls on every chunk
    (`StringSplitter.SplitIntoLines`). It cuts a text buffer into complete
    lines and an unterminated tail; `\n`, `\r` and the pair `\r\n` each end
    one line, empty lines are kept, and the tail is returned apart.

    A `\r` that is the very last character of the buffer is taken as a
    complete terminator: the splitter sees only the buffer, and a buffer
    ending in `"\r\r"` must end an event without waiting for more input. */
module LineSplitter {

  datatype Terminator = LF | CR | CRLF

  /** One complete line: its text and the terminator that ended it. */
  datatype Line = Line(content: string, terminator: Terminator)

  /** The complete lines of a buffer, in order, and its unterminated tail. */
  datatype Split = Split(lines: seq<Line>, rest: string)

  function TerminatorText(t: Terminator): (s: string)
    ensures 1 <= |s| <= 2
  {
    match t
    case LF => "\n"
    case CR => "\r"
    case CRLF => "\r\n"
  }

  predicate IsBreak(c: char) {
    c == '\r' || c == '\n'
  }

  predicate NoBreak(s: string) {
    forall i :: 0 <= i < |s| ==> !IsBreak(s[i])
  }

  /** The text a sequence of lines was cut from. */
  function Render(lines: seq<Line>): string {
    if lines == [] then []
    else lines[0].content + TerminatorText(lines[0].terminator) + Render(lines[1..])
  }

  /** The line texts alone, as the splitter hands them to the caller. */
  function Contents(lines: seq<Line>): (r: seq<string>)
    ensures |r| == |lines|
    ensures forall i :: 0 <= i < |lines| ==> r[i] == lines[i].content
  {
    if lines == [] then [] else [lines[0].content] + Contents(lines[1..])
  }

  /** What every split satisfies: no line and no tail contains a line break,
      and a line ended by a lone `\r` is never followed by an empty line
      ended by `\n` (that pair would have been one `\r\n` terminator). */
  ghost predicate WellFormed(sp: Split) {
    && NoBreak(sp.rest)
    && (forall i :: 0 <= i < |sp.lines| ==> NoBreak(sp.lines[i].content))
    && (forall i :: 0 <= i < |sp.lines| - 1 && sp.lines[i].terminator == CR ==>
          sp.lines[i + 1] != Line([], LF))
  }

  /** Index of the first line break at or after `k`, or the length when
      there is none. */
  function BreakFrom(s: string, k: nat): (i: nat)
    requires k <= |s|
    ensures k <= i <= |s|
    ensures forall j :: k <= j < i ==> !IsBreak(s[j])
    ensures i < |s| ==> IsBreak(s[i])
    decreases |s| - k
  {
    if k == |s| || IsBreak(s[k]) then k else BreakFrom(s, k + 1)
  }

  /** Index of the first line break, or the length when there is none. */
  function FirstBreak(s: string): (i: nat)
    ensures i <= |s|
    ensures forall j :: 0 <= j < i ==> !IsBreak(s[j])
    ensures i < |s| ==> IsBreak(s[i])
  {
    BreakFrom(s, 0)
  }

  /** The terminator that starts at index `i` of `s`: `\r\n` wins over `\r`. */
  function TerminatorAt(s: string, i: nat): (t: Terminator)
    requires i < |s| && IsBreak(s[i])
    ensures i + |TerminatorText(t)| <= |s|
  {
    if s[i] == '\n' then LF
    else if i + 1 < |s| && s[i + 1] == '\n' then CRLF
    else CR
  }

  /** The terminator found at `i` is the text found there. */
  lemma TerminatorAtText(s: string, i: nat)
    requires i < |s| && IsBreak(s[i])
    ensures s[i..i + |TerminatorText(TerminatorAt(s, i))|] == TerminatorText(TerminatorAt(s, i))
  {
  }

  function SplitLines(text: string): (r: Split)
    decreases |text|
  {
    var i := FirstBreak(text);
    if i == |text| then Split([], text)
    else
      var t := TerminatorAt(text, i);
      var tail := SplitLines(text[i + |TerminatorText(t)|..]);
      Split([Line(text[..i], t)] + tail.lines, tail.rest)
  }

  lemma AppendAssoc<T>(a: seq<T>, b: seq<T>, c: seq<T>)
    ensures (a + b) + c == a + (b + c)
  {
  }

  /** A text with a line break splits into its first line, that line's
      terminator, and the split of what follows the terminator. */
  lemma SplitHead(text: string) returns (c: string, t: Terminator, after: string)
    requires FirstBreak(text) < |text|
    ensures NoBreak(c) && |after| < |text|
    ensures text == c + TerminatorText(t) + after
    ensures t == CR ==> !(|after| > 0 && after[0] == '\n')
    ensures SplitLines(text) == Split([Line(c, t)] + SplitLines(after).lines, SplitLines(after).rest)
  {
    var i := FirstBreak(text);
    t := TerminatorAt(text, i);
    var n := |TerminatorText(t)|;
    c := text[..i];
    after := text[i + n..];
    TerminatorAtText(text, i);
    assert text == text[..i] + text[i..i + n] + text[i + n..];
  }

  /** A text without a line break is all tail. */
  lemma SplitNoBreak(text: string)
    requires NoBreak(text)
    ensures SplitLines(text) == Split([], text)
  {
  }

  /** Nothing is lost: the lines with their terminators, then the tail, give
      back the buffer. */
  lemma {:induction false} SplitRender(text: string)
    ensures Render(SplitLines(text).lines) + SplitLines(text).rest == text
    decreases |text|
  {
    if FirstBreak(text) < |text| {
      var c, t, after := SplitHead(text);
      var tail := SplitLines(after);
      var lines := [Line(c, t)] + tail.lines;
      assert lines[1..] == tail.lines;
      assert Render(lines) == c + TerminatorText(t) + Render(tail.lines);
      SplitRender(after);
      AppendAssoc(c + TerminatorText(t), Render(tail.lines), tail.rest);
    } else {
      assert SplitLines(text) == Split([], text);
    }
  }

  /** One step of the splitter: a break-free text, a terminator and what
      follows it split into that line and the split of what follows, as long
      as a lone `\r` is not followed by `\n`. */
  lemma SplitCons(c: string, t: Terminator, after: string)
    requires NoBreak(c)
    requires t == CR ==> !(|after| > 0 && after[0] == '\n')
    ensures SplitLines(c + TerminatorText(t) + after)
            == Split([Line(c, t)] + SplitLines(after).lines, SplitLines(after).rest)
  {
    var tt := TerminatorText(t);
    var text := c + tt + after;
    var n := |c|;
    assert text[..n] == c;
    assert text[n] == tt[0];
    assert FirstBreak(text) == n;
    assert t == CR && n + 1 < |text| ==> text[n + 1] == after[0];
    assert TerminatorAt(text, n) == t;
    assert text[n + |tt|..] == after;
  }

  /** The first line of a split is an empty `\n`-ended line exactly when the
      buffer starts with `\n`. */
  lemma SplitStartsWithLF(text: string)
    ensures (|SplitLines(text).lines| > 0 && SplitLines(text).lines[0] == Line([], LF))
            <==> (|text| > 0 && text[0] == '\n')
  {
    if |text| > 0 && text[0] == '\n' {
      assert FirstBreak(text) == 0;
    }
  }

  /** Every split the splitter produces is well formed. */
  lemma {:induction false} SplitWellFormed(text: string)
    ensures WellFormed(SplitLines(text))
    decreases |text|
  {
    if FirstBreak(text) < |text| {
      var c, t, after := SplitHead(text);
      var tail := SplitLines(after);
      SplitWellFormed(after);
      SplitStartsWithLF(after);
      ConsWellFormed(Line(c, t), tail);
    } else {
      assert SplitLines(text) == Split([], text);
    }
  }

  /** A break-free line in front of a well-formed split keeps it well
      formed, unless a lone `\r` would be followed by an empty `\n` line. */
  lemma ConsWellFormed(first: Line, tail: Split)
    requires NoBreak(first.content) && WellFormed(tail)
    requires first.terminator == CR && |tail.lines| > 0 ==> tail.lines[0] != Line([], LF)
    ensures WellFormed(Split([first] + tail.lines, tail.rest))
  {
    var lines := [first] + tail.lines;
    forall j | 0 <= j < |lines| ensures NoBreak(lines[j].content) {
      if j > 0 { assert lines[j] == tail.lines[j - 1]; }
    }
    forall j | 0 <= j < |lines| - 1 && lines[j].terminator == CR
      ensures lines[j + 1] != Line([], LF)
    {
      if j > 0 {
        assert lines[j] == tail.lines[j - 1] && lines[j + 1] == tail.lines[j];
      }
    }
  }

  /** The splitter is the only well-formed way to cut a buffer: cutting the
      rendering of a well-formed split gives that split back. */
  lemma {:induction false} SplitRenderUnique(sp: Split)
    requires WellFormed(sp)
    ensures SplitLines(Render(sp.lines) + sp.rest) == sp
    decreases |sp.lines|
  {
    if sp.lines == [] {
      assert Render(sp.lines) + sp.rest == sp.rest;
      SplitNoBreak(sp.rest);
    } else {
      var first := sp.lines[0];
      var tt := TerminatorText(first.terminator);
      var tailSplit := Split(sp.lines[1..], sp.rest);
      var after := Render(sp.lines[1..]) + sp.rest;
      assert Render(sp.lines) == first.content + tt + Render(sp.lines[1..]);
      AppendAssoc(first.content + tt, Render(sp.lines[1..]), sp.rest);
      TailWellFormed(sp);
      SplitRenderUnique(tailSplit);
      if first.terminator == CR && |after| > 0 && after[0] == '\n' {
        SplitStartsWithLF(after);
        assert false;
      }
      SplitCons(first.content, first.terminator, after);
      assert sp.lines == [first] + sp.lines[1..];
    }
  }

  /** Dropping the first line of a well-formed split keeps it well formed. */
  lemma TailWellFormed(sp: Split)
    requires WellFormed(sp) && |sp.lines| > 0
    ensures WellFormed(Split(sp.lines[1..], sp.rest))
  {
    var tail := sp.lines[1..];
    forall j | 0 <= j < |tail| - 1 && tail[j].terminator == CR
      ensures tail[j + 1] != Line([], LF)
    {
      assert sp.lines[j + 1] == tail[j] && sp.lines[j + 2] == tail[j + 1];
    }
  }

  /** The two chunks `a` and `b` cut a `\r\n` pair in half. */
  predicate CutsCrLf(a: string, b: string) {
    |a| > 0 && a[|a| - 1] == '\r' && |b| > 0 && b[0] == '\n'
  }

  /** Split across reads: splitting `a`, then splitting its tail followed by
      `b`, gives the same lines and tail as splitting `a + b` at once,
      unless the cut falls inside a `\r\n` pair. */
  lemma {:induction false} SplitAcrossReads(a: string, b: string)
    requires !CutsCrLf(a, b)
    ensures var first := SplitLines(a);
            var second := SplitLines(first.rest + b);
            SplitLines(a + b) == Split(first.lines + second.lines, second.rest)
    decreases |a|
  {
    if FirstBreak(a) < |a| {
      var c, t, a' := SplitHead(a);
      var tt := TerminatorText(t);
      AppendAssoc(c + tt, a', b);
      HeadBeforeNextRead(a, b, t, a');
      SplitCons(c, t, a' + b);
      SplitAcrossReads(a', b);
      var second := SplitLines(SplitLines(a').rest + b);
      AppendAssoc([Line(c, t)], SplitLines(a').lines, second.lines);
    } else {
      SplitNoBreak(a);
      assert [] + SplitLines(a + b).lines == SplitLines(a + b).lines;
    }
  }

  /** When the tail `a'` of `a` follows a terminator `t` that ends a line
      of `a`, the next read `b` cannot turn a lone `\r` into a `\r\n` pair,
      and `a'` and `b` do not cut a pair either. */
  lemma HeadBeforeNextRead(a: string, b: string, t: Terminator, a': string)
    requires !CutsCrLf(a, b)
    requires |a| >= |TerminatorText(t)| + |a'| && a[|a| - |a'|..] == a'
    requires a[|a| - |a'| - |TerminatorText(t)|..|a| - |a'|] == TerminatorText(t)
    requires t == CR ==> !(|a'| > 0 && a'[0] == '\n')
    ensures t == CR ==> !(|a' + b| > 0 && (a' + b)[0] == '\n')
    ensures !CutsCrLf(a', b)
  {
    if |a'| > 0 {
      assert a'[|a'| - 1] == a[|a| - 1];
    } else if t == CR {
      assert a[|a| - 1] == '\r';
    }
  }

  /** The assumption above at work: when a read ends with the `\r` of a
      `\r\n` pair, the `\n` that starts the next read yields one more, empty
      line than the pair read whole. */
  lemma CrLfCutYieldsExtraLine()
    ensures SplitLines("x\r").lines == [Line("x", CR)]
    ensures SplitLines("x\r").rest == ""
    ensures SplitLines("" + "\n").lines == [Line("", LF)]
    ensures SplitLines("x\r" + "\n").lines == [Line("x", CRLF)]
  {
    LoneCrEndsLine();
    LoneLfIsEmptyLine();
    CrLfTogetherEndsOneLine();
  }

  lemma LoneCrEndsLine()
    ensures SplitLines("x\r") == Split([Line("x", CR)], "")
  {
    SplitCons("x", CR, "");
    assert "x" + TerminatorText(CR) + "" == "x\r";
    assert SplitLines("") == Split([], "");
  }

  lemma LoneLfIsEmptyLine()
    ensures SplitLines("" + "\n") == Split([Line("", LF)], "")
  {
    SplitCons("", LF, "");
    assert "" + TerminatorText(LF) + "" == "" + "\n";
    assert SplitLines("") == Split([], "");
  }

  lemma CrLfTogetherEndsOneLine()
    ensures SplitLines("x\r" + "\n") == Split([Line("x", CRLF)], "")
  {
    SplitCons("x", CRLF, "");
    assert "x" + TerminatorText(CRLF) + "" == "x\r" + "\n";
    assert SplitLines("") == Split([], "");
  }

}
