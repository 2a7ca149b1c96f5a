/** The three connection states and the step each one takes when run
    (`DisconnectedState.Run`, `ConnectingState.Run`, `ConnectedState.Run`).
    The HTTP request, the stream read and the cancellation token are
    replaced by their outcomes, given as inputs; the configuration the
    states pass to each other is one record. */
module ConnectionStates {
  import opened Wrappers
  import opened SseText
  import opened LineSplitter
  import opened EventAssembler

  type Url = string

  /** Opaque handles for the requester factory and the token service. */
  datatype RequesterFactory = RequesterFactory(id: nat)
  datatype TokenSource = TokenSource(id: nat)

  /** What every state carries: target URL, requester factory, headers and
      token service; the URL and the factory are nullable references. */
  datatype Config = Config(
    url: Option<Url>,
    factory: Option<RequesterFactory>,
    headers: map<string, string>,
    tokenSource: Option<TokenSource>)

  /** The part of an HTTP response the states look at. */
  datatype Response = Response(statusCode: int, responseUri: Option<Url>)

  const HttpOk: int := 200

  /** How the request task of `ConnectingState.Run` ended. */
  datatype GetOutcome = Completed(response: Response) | Faulted | Canceled

  /** How the stream read of `ConnectedState.Run` ended: some bytes, decoded
      to `text`; zero bytes (end of stream); or an exception. */
  datatype ReadOutcome = Chunk(text: string) | EndOfStream | ReadFailed

  /** The outcomes of whichever I/O the running state performs. */
  datatype Environment = Environment(get: GetOutcome, read: ReadOutcome)

  /** The cancellation token as the checkpoints of one run see it: never,
      or from the checkpoint numbered `checkpoint` on. Once a checkpoint
      sees the request, every later one does. */
  datatype Cancellation = NotRequested | RequestedBy(checkpoint: nat)

  predicate SeenAt(cancel: Cancellation, checkpoint: nat) {
    cancel.RequestedBy? && cancel.checkpoint <= checkpoint
  }

  /** The `ArgumentNullException`s the state constructors throw. */
  datatype ArgumentNull = NullUrl | NullFactory

  /** The coarse lifecycle signal published to observers. */
  datatype EventSourceState = CONNECTING | OPEN | CLOSED

  /** A connection state. A connected state also owns the assembler's event
      in progress and the carried-over text. */
  datatype State =
    | Disconnected(config: Config)
    | Connecting(config: Config)
    | Connected(config: Config, response: Response, sse: Option<Event>, remaining: string)

  /** `State` of each class: CLOSED, CONNECTING, OPEN. */
  function Projection(s: State): (r: EventSourceState)
    ensures r == CLOSED <==> s.Disconnected?
    ensures r == CONNECTING <==> s.Connecting?
    ensures r == OPEN <==> s.Connected?
  {
    match s
    case Disconnected(_) => CLOSED
    case Connecting(_) => CONNECTING
    case Connected(_, _, _, _) => OPEN
  }

  // ---------------------------------------------------------------------
  // Constructors

  /** `new DisconnectedState(...)`: rejects a null URL only. */
  function NewDisconnected(config: Config): (r: Result<State, ArgumentNull>)
    ensures r.Failure? <==> config.url.None?
    ensures r.Failure? ==> r.error == NullUrl
    ensures r.Success? ==> r.value == Disconnected(config)
  {
    if config.url.None? then Failure(NullUrl) else Success(Disconnected(config))
  }

  /** `new ConnectingState(...)`: rejects a null URL, then a null factory. */
  function NewConnecting(config: Config): (r: Result<State, ArgumentNull>)
    ensures r.Success? <==> config.url.Some? && config.factory.Some?
    ensures config.url.None? ==> r == Failure(NullUrl)
    ensures config.url.Some? && config.factory.None? ==> r == Failure(NullFactory)
    ensures r.Success? ==> r.value == Connecting(config)
  {
    if config.url.None? then Failure(NullUrl)
    else if config.factory.None? then Failure(NullFactory)
    else Success(Connecting(config))
  }

  /** `new ConnectedState(...)`: no checks; no event in progress and no
      carried-over text. */
  function NewConnected(config: Config, response: Response): (s: State)
    ensures s.Connected? && s.sse == None && s.remaining == []
    ensures s.config == config && s.response == response
  {
    Connected(config, response, None, [])
  }

  // ---------------------------------------------------------------------
  // Steps

  /** The next state a run yields, or the exception that faults its task,
      and the events handed to the subscriber on the way, in order. */
  datatype Transition = Transition(next: Result<State, ArgumentNull>, dispatched: seq<Event>)

  /** `DisconnectedState.Run`: parks (a new disconnected state with the same
      configuration) when cancellation is requested, and otherwise moves to
      connecting with the same configuration. */
  function StepDisconnected(config: Config, cancel: Cancellation): (t: Transition)
    ensures t.dispatched == []
    ensures t.next.Success? ==> t.next.value.config == config
    ensures t.next.Success? ==> !t.next.value.Connected?
    ensures SeenAt(cancel, 0) ==> t.next == NewDisconnected(config)
    ensures !SeenAt(cancel, 0) ==> t.next == NewConnecting(config)
  {
    if SeenAt(cancel, 0) then Transition(NewDisconnected(config), [])
    else Transition(NewConnecting(config), [])
  }

  /** `ConnectingState.Run`'s continuation: connected only when the request
      ran to completion, no cancellation is seen, and the status is OK;
      disconnected, with the original configuration, in every other case. */
  function StepConnecting(config: Config, get: GetOutcome, cancel: Cancellation): (t: Transition)
    ensures t.dispatched == []
    ensures t.next.Success? ==> t.next.value.config == config && !t.next.value.Connecting?
    ensures (get.Completed? && !SeenAt(cancel, 0) && get.response.statusCode == HttpOk)
            ==> t.next == Success(NewConnected(config, get.response))
    ensures !(get.Completed? && !SeenAt(cancel, 0) && get.response.statusCode == HttpOk)
            ==> t.next == NewDisconnected(config)
  {
    if get.Completed? && !SeenAt(cancel, 0) && get.response.statusCode == HttpOk then
      Transition(Success(NewConnected(config, get.response)), [])
    else Transition(NewDisconnected(config), [])
  }

  /** What one run of a connected state does to its own fields, whether it
      returns itself, and what it dispatches. */
  datatype ConnectedEffect = ConnectedEffect(
    staysConnected: bool, sse: Option<Event>, remaining: string, dispatched: seq<Event>)

  /** How many of `n` split lines are processed before the line loop's
      cancellation check (checkpoint `1 + k` before line `k`) breaks out. */
  function LinesProcessed(cancel: Cancellation, n: nat): (k: nat)
    requires !SeenAt(cancel, 0)
    ensures k <= n
    ensures k < n ==> SeenAt(cancel, k + 1)
    ensures forall j :: 1 <= j <= k ==> !SeenAt(cancel, j)
  {
    if cancel.RequestedBy? && 1 <= cancel.checkpoint <= n then cancel.checkpoint - 1 else n
  }

  /** The body of `ConnectedState.Run`. Checkpoints: 0 after the read,
      `1 + k` before line `k`, and `1 + n` after the `n` lines. */
  function ConnectedRun(sse: Option<Event>, remaining: string, read: ReadOutcome, cancel: Cancellation)
    : (e: ConnectedEffect)
    // without bytes, or with cancellation seen right after the read, the
    // fields stay as they were and nothing is dispatched
    ensures (!read.Chunk? || SeenAt(cancel, 0)) ==>
              e == ConnectedEffect(false, sse, remaining, [])
    // with bytes and no cancellation, the run is one chunk fed to the
    // assembler, and the state keeps itself
    ensures read.Chunk? && cancel.NotRequested? ==>
              var a := FeedText(sse, remaining, read.text);
              e == ConnectedEffect(true, a.sse, a.remaining, a.dispatched)
    // the carried-over text never holds a line break once text was split
    ensures read.Chunk? && !SeenAt(cancel, 0) ==> NoBreak(e.remaining)
    // the state keeps itself exactly when bytes arrived and no checkpoint up
    // to the one after the line loop saw cancellation; a cancellation seen
    // before any line or after the loop ends the connected state
    ensures e.staysConnected <==>
              read.Chunk? && !SeenAt(cancel, |Contents(SplitLines(remaining + read.text).lines)| + 1)
  {
    if !read.Chunk? || SeenAt(cancel, 0) then ConnectedEffect(false, sse, remaining, [])
    else
      var sp := SplitLines(remaining + read.text);
      SplitWellFormed(remaining + read.text);
      var lines := Contents(sp.lines);
      var k := LinesProcessed(cancel, |lines|);
      assert cancel.NotRequested? ==> lines[..k] == lines;
      var f := FeedLines(sse, lines[..k]);
      ConnectedEffect(!SeenAt(cancel, |lines| + 1), f.sse, sp.rest, f.dispatched)
  }

  /** `ConnectedState.Run`: returns itself (with its updated fields) while
      bytes arrive without cancellation; otherwise a disconnected state
      aimed at the response URI with the same headers, factory and token
      service. */
  function StepConnected(config: Config, response: Response, sse: Option<Event>, remaining: string,
                         read: ReadOutcome, cancel: Cancellation): (t: Transition)
    ensures t.next.Success? ==> !t.next.value.Connecting?
    ensures t.next.Success? && t.next.value.Connected? ==>
              t.next.value.config == config && t.next.value.response == response
    ensures (!read.Chunk? || SeenAt(cancel, 0)) ==>
              t == Transition(NewDisconnected(config.(url := response.responseUri)), [])
    // bytes without cancellation: the same state, holding the assembler's
    // event in progress and carried-over text, after dispatching its events
    ensures read.Chunk? && cancel.NotRequested? ==>
              var a := FeedText(sse, remaining, read.text);
              t == Transition(Success(Connected(config, response, a.sse, a.remaining)), a.dispatched)
    // a cancellation seen at any checkpoint up to the one after the line
    // loop yields a disconnected state aimed at the response URI
    ensures read.Chunk? && SeenAt(cancel, |Contents(SplitLines(remaining + read.text).lines)| + 1) ==>
              t.next == NewDisconnected(config.(url := response.responseUri))
  {
    var e := ConnectedRun(sse, remaining, read, cancel);
    if e.staysConnected then Transition(Success(Connected(config, response, e.sse, e.remaining)), e.dispatched)
    else Transition(NewDisconnected(config.(url := response.responseUri)), e.dispatched)
  }

  /** One run of whichever state is current. Disconnected yields
      disconnected or connecting; connecting yields connected or
      disconnected; connected yields itself or disconnected; only a
      connected state dispatches events. */
  function Step(s: State, env: Environment, cancel: Cancellation): (t: Transition)
    ensures s.Disconnected? && t.next.Success? ==> !t.next.value.Connected?
    ensures s.Connecting? && t.next.Success? ==> !t.next.value.Connecting?
    ensures s.Connected? && t.next.Success? ==> !t.next.value.Connecting?
    ensures !s.Connected? ==> t.dispatched == []
  {
    match s
    case Disconnected(config) => StepDisconnected(config, cancel)
    case Connecting(config) => StepConnecting(config, env.get, cancel)
    case Connected(config, response, sse, remaining) =>
      StepConnected(config, response, sse, remaining, env.read, cancel)
  }

  // ---------------------------------------------------------------------
  // Properties of the state machine

  /** A state as its constructor leaves it, with a response that names its
      URI: every reference the next constructor checks is present. */
  predicate WellConfigured(s: State) {
    && s.config.url.Some?
    && s.config.factory.Some?
    && (s.Connected? ==> s.response.responseUri.Some?)
  }

  /** From a well-configured state, and a response that names its URI, a run
      never faults on a constructor check and yields a well-configured
      state; the headers, the factory and the token service are passed on
      unchanged, and only leaving the connected state changes the URL, to
      the response URI. */
  lemma StepKeepsConfiguration(s: State, env: Environment, cancel: Cancellation)
    requires WellConfigured(s)
    requires env.get.Completed? ==> env.get.response.responseUri.Some?
    ensures var t := Step(s, env, cancel);
            && t.next.Success?
            && WellConfigured(t.next.value)
            && t.next.value.config.headers == s.config.headers
            && t.next.value.config.factory == s.config.factory
            && t.next.value.config.tokenSource == s.config.tokenSource
            && t.next.value.config.url
               == (if s.Connected? && t.next.value.Disconnected? then s.response.responseUri else s.config.url)
  {
    if s.Connected? {
      var e := ConnectedRun(s.sse, s.remaining, env.read, cancel);
      assert Step(s, env, cancel) == StepConnected(s.config, s.response, s.sse, s.remaining, env.read, cancel);
    }
  }

  /** Once cancellation is requested, a disconnected state stays parked:
      however often it runs, it yields itself. */
  lemma {:induction false} ParkedStaysParked(config: Config, env: Environment, cancel: Cancellation, runs: nat)
    requires config.url.Some? && SeenAt(cancel, 0)
    ensures Iterate(Disconnected(config), env, cancel, runs) == Success(Disconnected(config))
  {
    if runs > 0 {
      ParkedStaysParked(config, env, cancel, runs - 1);
    }
  }

  /** `runs` runs in a row under the same outcomes, stopping at a fault. */
  function Iterate(s: State, env: Environment, cancel: Cancellation, runs: nat): Result<State, ArgumentNull> {
    if runs == 0 then Success(s)
    else match Iterate(s, env, cancel, runs - 1)
      case Failure(err) => Failure(err)
      case Success(prev) => Step(prev, env, cancel).next
  }

  /** The cycle observers see: a disconnected state that is not cancelled
      goes CONNECTING, an OK response makes it OPEN, the end of the stream
      makes it CLOSED, and it goes CONNECTING again unless cancellation is
      requested, in which case it stays CLOSED. */
  lemma ConnectionCycle(config: Config, response: Response, later: Cancellation)
    requires config.url.Some? && config.factory.Some?
    requires response.statusCode == HttpOk && response.responseUri.Some?
    ensures var s1 := Step(Disconnected(config), Environment(Faulted, EndOfStream), NotRequested).next;
            && s1.Success? && Projection(s1.value) == CONNECTING
            && var s2 := Step(s1.value, Environment(Completed(response), EndOfStream), NotRequested).next;
            && s2.Success? && Projection(s2.value) == OPEN
            && var s3 := Step(s2.value, Environment(Faulted, EndOfStream), NotRequested).next;
            && s3.Success? && Projection(s3.value) == CLOSED
            && var s4 := Step(s3.value, Environment(Faulted, EndOfStream), later).next;
            && s4.Success?
            && Projection(s4.value) == (if SeenAt(later, 0) then CLOSED else CONNECTING)
  {
  }

  /** Cancellation inside the line loop only cuts the run short: the events
      dispatched are a prefix of those the whole chunk yields, and the
      carried-over text is the same. */
  lemma CancellationTruncates(sse: Option<Event>, remaining: string, text: string, cancel: Cancellation)
    requires !SeenAt(cancel, 0)
    ensures var cut := ConnectedRun(sse, remaining, Chunk(text), cancel);
            var whole := FeedText(sse, remaining, text);
            && cut.remaining == whole.remaining
            && |cut.dispatched| <= |whole.dispatched|
            && cut.dispatched == whole.dispatched[..|cut.dispatched|]
  {
    var lines := Contents(SplitLines(remaining + text).lines);
    var k := LinesProcessed(cancel, |lines|);
    assert ConnectedRun(sse, remaining, Chunk(text), cancel).dispatched
           == FeedLines(sse, lines[..k]).dispatched;
    FeedPrefix(sse, lines, k);
  }
}
