/** One gateway session: the per-frame step function (`handle_ws`), the dispatch-event
    classifier (`handle_ws_gateway_event`), and the session loop as a fold over a trace
    of wakeups, each either an inbound frame or a heartbeat-timer tick. */
module Connection {
  import opened Wrappers
  import opened Json
  import opened Events
  import opened Gateway

  // ---------------------------------------------------------------------------
  // State and configuration
  // ---------------------------------------------------------------------------

  /** The heartbeat timer: its period, and how many times it has been re-created. */
  datatype Timer = Timer(periodMs: nat, generation: nat)

  /** The mutable part of a `DiscordBot`. */
  datatype Session = Session(sequence: Option<U64>, durationMs: nat, interval: Timer)

  const INITIAL_DURATION_MS: nat := 1000

  /** Payload decoding (`serde_json::from_value`) for the three event payload shapes,
      left abstract: `None` is a decoding failure. */
  datatype Decoders = Decoders(
    guildCreate: Value -> Option<GuildCreate>,
    message: Value -> Option<MessageObject>,
    channel: Value -> Option<GuildChannel>)

  /** A `DiscordBot`: the configuration it was created with and its session state. */
  datatype Bot = Bot(
    token: string,
    intents: U64,
    build: BuildInfo,
    decoders: Decoders,
    webSocket: string,
    session: Session)

  /** `DiscordBot::create`. `discovered` is the outcome of the REST lookup of the gateway
      URL and `parseUrl` is `Url::from_str`, giving the parsed URL; a failure of either is
      the creation's failure, the lookup's first. */
  function CreateBot<E>(
    token: string, intents: U64, build: BuildInfo, decoders: Decoders, discovered: Result<string, E>,
    parseUrl: string -> Result<string, E>
  ): (r: Result<Bot, E>)
    ensures discovered.Failure? ==> r == Failure(discovered.error)
    ensures discovered.Success? && parseUrl(discovered.value).Failure? ==>
      r == Failure(parseUrl(discovered.value).error)
    ensures r.Success? <==> discovered.Success? && parseUrl(discovered.value).Success?
    ensures r.Success? ==>
      && r.value.session.sequence.None?
      && r.value.session.durationMs == 1000
      && r.value.session.interval.periodMs == 1000
      && r.value.webSocket == parseUrl(discovered.value).value
      && r.value.token == token && r.value.intents == intents
  {
    match discovered
    case Failure(e) => Failure(e)
    case Success(text) =>
      match parseUrl(text)
      case Failure(e) => Failure(e)
      case Success(url) =>
        Success(Bot(token, intents, build, decoders, url,
          Session(None, INITIAL_DURATION_MS, Timer(INITIAL_DURATION_MS, 0))))
  }

  // ---------------------------------------------------------------------------
  // Frames, messages, publications
  // ---------------------------------------------------------------------------

  datatype CloseReason = CloseReason(code: nat, description: Option<string>)

  /** An inbound WebSocket frame. A text frame carries the JSON document its text parses
      to, or `None` when the text is not JSON at all. */
  datatype Frame =
    | Text(doc: Option<Value>)
    | Binary(data: seq<Byte>)
    | Continuation(data: seq<Byte>)
    | Ping(payload: seq<Byte>)
    | Pong(payload: seq<Byte>)
    | Close(reason: Option<CloseReason>)

  /** An outbound WebSocket message. */
  datatype Message = TextMessage(doc: Value) | PongMessage(payload: seq<Byte>)

  /** What the session hands to the broker, one of the three event families. */
  datatype Publication = OfEvent(event: Event) | OfMessage(message: MessageEvent) | OfChannel(channel: ChannelEvent)

  /** The errors that end a session. */
  datatype GatewayError =
    | MalformedText               // a text frame that is not JSON
    | MalformedEnvelope           // JSON that is not a gateway envelope
    | MalformedHello              // a Hello whose `d` has no valid `heartbeat_interval`
    | ZeroInterval                // a Hello announcing 0 ms: `tokio::time::interval` panics
    | MalformedPayload(event: string)  // an event payload its decoder rejects
    | StreamFailed                // the socket stream ended or errored

  /** Heartbeat: op 1 with the last sequence number (`null` if none) as `d`. */
  function HeartbeatMessage(sequence: Option<U64>): Message {
    TextMessage(EncodeEnvelope(Envelope(None, None, HEARTBEAT, OptU64ToJson(sequence))))
  }

  /** Identify: op 2 with the `GatewayIdentify` payload as `d`. */
  function IdentifyMessage(bot: Bot): Message {
    TextMessage(EncodeEnvelope(
      Envelope(None, None, IDENTIFY, IdentifyToJson(CreateIdentify(bot.token, bot.intents, bot.build)))))
  }

  /** A heartbeat read back off the wire: op 1, no `s`, no `t`, and `d` holding exactly the
      sequence number it was built from. */
  lemma HeartbeatWire(sequence: Option<U64>)
    ensures var e := DecodeEnvelope(HeartbeatMessage(sequence).doc);
      && e.Some? && e.value.op == HEARTBEAT && e.value.s.None? && e.value.t.None?
      && OptU64Field(Some(e.value.d)) == Some(sequence)
  {
    EnvelopeRoundTrip(Envelope(None, None, HEARTBEAT, OptU64ToJson(sequence)));
  }

  // ---------------------------------------------------------------------------
  // Dispatch events
  // ---------------------------------------------------------------------------

  /** `handle_ws_gateway_event`: classify a dispatch by its event name, decode its payload
      and publish the domain event. `READY` and unknown names publish nothing; a payload
      that does not decode is fatal. Note the channel branch as written: `CHANNEL_DELETE`
      publishes `ChannelUpdate` and `CHANNEL_UPDATE` publishes `ChannelDelete`. */
  function HandleGatewayEvent(dec: Decoders, name: string, d: Value): Result<seq<Publication>, GatewayError> {
    if name == "GUILD_CREATE" then
      match dec.guildCreate(d)
      case None => Failure(MalformedPayload(name))
      case Some(g) => Success([OfEvent(GuildCreated(g))])
    else if name == "READY" then
      Success([])
    else if name == "MESSAGE_CREATE" || name == "MESSAGE_UPDATE" || name == "MESSAGE_DELETE" then
      match dec.message(d)
      case None => Failure(MalformedPayload(name))
      case Some(m) =>
        var event :=
          if name == "MESSAGE_CREATE" then MessageCreate(m)
          else if name == "MESSAGE_DELETE" then MessageDelete(m)
          else MessageUpdate(m);
        Success([OfMessage(event)])
    else if name == "CHANNEL_UPDATE" || name == "CHANNEL_CREATE" || name == "CHANNEL_DELETE" then
      match dec.channel(d)
      case None => Failure(MalformedPayload(name))
      case Some(c) =>
        var event :=
          if name == "CHANNEL_CREATE" then ChannelCreate(c)
          else if name == "CHANNEL_DELETE" then ChannelUpdate(c)
          else ChannelDelete(c);
        Success([OfChannel(event)])
    else
      Success([])
  }

  /** The kinds of publication a dispatch can produce. */
  datatype Kind =
    | GuildCreateKind
    | MessageCreateKind | MessageUpdateKind | MessageDeleteKind
    | ChannelCreateKind | ChannelUpdateKind | ChannelDeleteKind

  /** The classification table, written out as data (including the two swapped channel
      rows). Names outside it publish nothing. */
  const EVENT_TABLE: map<string, Kind> := map[
    "GUILD_CREATE" := GuildCreateKind,
    "MESSAGE_CREATE" := MessageCreateKind,
    "MESSAGE_UPDATE" := MessageUpdateKind,
    "MESSAGE_DELETE" := MessageDeleteKind,
    "CHANNEL_CREATE" := ChannelCreateKind,
    "CHANNEL_DELETE" := ChannelUpdateKind,
    "CHANNEL_UPDATE" := ChannelDeleteKind]

  /** The publication of kind `k` carrying payload `d`, if `d` decodes. */
  function Expected(dec: Decoders, k: Kind, d: Value): Option<Publication> {
    match k
    case GuildCreateKind => if dec.guildCreate(d).Some? then Some(OfEvent(GuildCreated(dec.guildCreate(d).value))) else None
    case MessageCreateKind => if dec.message(d).Some? then Some(OfMessage(MessageCreate(dec.message(d).value))) else None
    case MessageUpdateKind => if dec.message(d).Some? then Some(OfMessage(MessageUpdate(dec.message(d).value))) else None
    case MessageDeleteKind => if dec.message(d).Some? then Some(OfMessage(MessageDelete(dec.message(d).value))) else None
    case ChannelCreateKind => if dec.channel(d).Some? then Some(OfChannel(ChannelCreate(dec.channel(d).value))) else None
    case ChannelUpdateKind => if dec.channel(d).Some? then Some(OfChannel(ChannelUpdate(dec.channel(d).value))) else None
    case ChannelDeleteKind => if dec.channel(d).Some? then Some(OfChannel(ChannelDelete(dec.channel(d).value))) else None
  }

  /** The classifier agrees with the table: a name in the table publishes exactly one
      event of the tabled kind (or fails if the payload does not decode); any other name,
      `READY` included, publishes nothing and succeeds. */
  lemma EventClassification(dec: Decoders, name: string, d: Value)
    ensures name !in EVENT_TABLE ==> HandleGatewayEvent(dec, name, d) == Success([])
    ensures name in EVENT_TABLE ==>
      HandleGatewayEvent(dec, name, d) ==
        (match Expected(dec, EVENT_TABLE[name], d)
         case None => Failure(MalformedPayload(name))
         case Some(p) => Success([p]))
  {
  }

  /** No dispatch ever publishes the start signal. */
  lemma DispatchNeverInit(dec: Decoders, name: string, d: Value)
    ensures HandleGatewayEvent(dec, name, d).Success? ==>
      forall p :: p in HandleGatewayEvent(dec, name, d).value ==> p != OfEvent(Init)
  {
  }

  // ---------------------------------------------------------------------------
  // The step function
  // ---------------------------------------------------------------------------

  /** The outcome of one frame: the new session, whether to keep reading, an optional
      reply to send, and the events published. */
  datatype Reaction = Reaction(session: Session, proceed: bool, reply: Option<Message>, published: seq<Publication>)

  /** `handle_ws`. */
  function HandleWs(bot: Bot, session: Session, frame: Frame): Result<Reaction, GatewayError> {
    match frame
    case Text(doc) => HandleText(bot, session, doc)
    case Binary(_) => Success(Reaction(session, true, None, []))
    case Continuation(_) => Success(Reaction(session, true, None, []))
    case Ping(p) => Success(Reaction(session, true, Some(PongMessage(p)), []))
    case Pong(_) => Success(Reaction(session, true, None, []))
    case Close(_) => Success(Reaction(session, false, None, []))
  }

  /** The session once a text frame's `s` is stored. This is the first effect of a text
      frame that decodes as an envelope, and it stays in the bot even when the op then
      fails. */
  function Recorded(session: Session, doc: Option<Value>): Session {
    if doc.Some? && DecodeEnvelope(doc.value).Some? && DecodeEnvelope(doc.value).value.s.Some?
    then session.(sequence := DecodeEnvelope(doc.value).value.s)
    else session
  }

  /** A text frame: decode the envelope, record its sequence number, then act on its op. */
  function HandleText(bot: Bot, session: Session, doc: Option<Value>): Result<Reaction, GatewayError> {
    if doc.None? then Failure(MalformedText)
    else
      match DecodeEnvelope(doc.value)
      case None => Failure(MalformedEnvelope)
      case Some(env) =>
        // The sequence number is recorded before the op code is looked at.
        HandleOp(bot, Recorded(session, doc), env)
  }

  /** The op-code dispatch inside a text frame. */
  function HandleOp(bot: Bot, session: Session, env: Envelope): Result<Reaction, GatewayError> {
    if env.op == GATEWAY then
      if env.t.Some? then
        match HandleGatewayEvent(bot.decoders, env.t.value, env.d)
        case Failure(e) => Failure(e)
        case Success(published) => Success(Reaction(session, true, None, published))
      else
        Success(Reaction(session, true, None, []))   // dispatch without an event name: logged
    else if env.op == HELLO then
      match DecodeHello(env.d)
      case None => Failure(MalformedHello)
      case Some(ms) =>
        // `tokio::time::interval` panics on a zero period, before the Identify is built.
        if ms == 0 then Failure(ZeroInterval)
        else
          var s2 := session.(durationMs := ms, interval := Timer(ms, session.interval.generation + 1));
          Success(Reaction(s2, true, Some(IdentifyMessage(bot)), []))
    else if env.op == ACK then
      Success(Reaction(session, true, None, []))     // logged
    else if env.op == INVALID_SESSION then
      Success(Reaction(session, true, None, []))     // logged, no reconnect
    else
      Success(Reaction(session, true, None, []))     // unknown op code: logged
  }

  /** A text frame that decodes as an envelope with `s = Some(n)` leaves the bot at
      sequence `n` whatever the op code, and whether handling the op then succeeds or ends
      the session; with `s = None` the sequence is unchanged. */
  lemma TextTracksSequence(bot: Bot, r: Run, doc: Value)
    requires r.ending == Running && DecodeEnvelope(doc).Some?
    ensures var env := DecodeEnvelope(doc).value;
      var expected := if env.s.Some? then env.s else r.session.sequence;
      && Wake(bot, r, Inbound(Text(Some(doc)))).session.sequence == expected
      && (HandleWs(bot, r.session, Text(Some(doc))).Success? ==>
            HandleWs(bot, r.session, Text(Some(doc))).value.session.sequence == expected)
  {
  }

  /** Hello: the heartbeat period becomes the announced interval, the timer is re-created,
      and the reply is one Identify envelope (op 2, no `s`, no `t`, the Identify payload as
      `d`). A Hello whose payload does not decode ends the session, and so does one that
      announces a zero interval, on which the timer constructor panics. */
  lemma HelloSendsIdentify(bot: Bot, session: Session, doc: Value)
    requires DecodeEnvelope(doc).Some? && DecodeEnvelope(doc).value.op == HELLO
    ensures var env := DecodeEnvelope(doc).value;
      var r := HandleWs(bot, session, Text(Some(doc)));
      && (r.Success? <==> DecodeHello(env.d).Some? && DecodeHello(env.d).value > 0)
      && (DecodeHello(env.d).None? ==> r == Failure(MalformedHello))
      && (DecodeHello(env.d) == Some(0) ==> r == Failure(ZeroInterval))
      && (r.Success? ==>
          var ms := DecodeHello(env.d).value;
          && r.value.proceed && r.value.published == []
          && r.value.session.durationMs == ms
          && r.value.session.interval == Timer(ms, session.interval.generation + 1)
          && r.value.reply == Some(IdentifyMessage(bot))
          && DecodeEnvelope(r.value.reply.value.doc) ==
               Some(Envelope(None, None, IDENTIFY, IdentifyToJson(CreateIdentify(bot.token, bot.intents, bot.build)))))
  {
    EnvelopeRoundTrip(Envelope(None, None, IDENTIFY, IdentifyToJson(CreateIdentify(bot.token, bot.intents, bot.build))));
  }

  /** A dispatch with an event name continues without a reply and publishes what the
      classifier publishes; its failure is the step's failure. */
  lemma DispatchPublishes(bot: Bot, session: Session, doc: Value)
    requires DecodeEnvelope(doc).Some? && DecodeEnvelope(doc).value.op == GATEWAY
    requires DecodeEnvelope(doc).value.t.Some?
    ensures var env := DecodeEnvelope(doc).value;
      var r := HandleWs(bot, session, Text(Some(doc)));
      var c := HandleGatewayEvent(bot.decoders, env.t.value, env.d);
      && (r.Success? <==> c.Success?)
      && (r.Failure? ==> r.error == c.error)
      && (r.Success? ==> r.value.proceed && r.value.reply.None? && r.value.published == c.value)
  {
  }

  /** Ack, Invalid Session, any unknown op code, and a dispatch without an event name
      change nothing but the sequence number, send nothing and keep the session open. */
  lemma QuietOps(bot: Bot, session: Session, doc: Value)
    requires DecodeEnvelope(doc).Some?
    requires var env := DecodeEnvelope(doc).value;
      env.op != HELLO && (env.op == GATEWAY ==> env.t.None?)
    ensures var env := DecodeEnvelope(doc).value;
      HandleWs(bot, session, Text(Some(doc))) ==
        Success(Reaction(if env.s.Some? then session.(sequence := env.s) else session, true, None, []))
  {
  }

  /** Binary, continuation and pong frames are ignored. */
  lemma IgnoredFrames(bot: Bot, session: Session, frame: Frame)
    requires frame.Binary? || frame.Continuation? || frame.Pong?
    ensures HandleWs(bot, session, frame) == Success(Reaction(session, true, None, []))
  {
  }

  /** A ping is answered by a pong carrying the same bytes, with no other effect. */
  lemma PingPong(bot: Bot, session: Session, payload: seq<Byte>)
    ensures HandleWs(bot, session, Ping(payload)) ==
      Success(Reaction(session, true, Some(PongMessage(payload)), []))
  {
  }

  /** A close frame, with or without a reason, stops the session and sends nothing. */
  lemma CloseStops(bot: Bot, session: Session, reason: Option<CloseReason>)
    ensures HandleWs(bot, session, Close(reason)) == Success(Reaction(session, false, None, []))
  {
  }

  /** Text that is not JSON, or JSON that is not an envelope, ends the session. */
  lemma MalformedTextIsFatal(bot: Bot, session: Session, doc: Option<Value>)
    requires doc.None? || DecodeEnvelope(doc.value).None?
    ensures HandleWs(bot, session, Text(doc)).Failure?
  {
  }

  // ---------------------------------------------------------------------------
  // The session loop
  // ---------------------------------------------------------------------------

  /** What wakes the loop: a frame, the end (or failure) of the frame stream, or a tick
      of the heartbeat timer. Which of two ready sources wins is decided by the trace. */
  datatype Wakeup = Inbound(frame: Frame) | StreamEnd | Tick

  datatype Ending = Running | Closed | Failed(error: GatewayError)

  /** The loop's observable history: the session, every message sent, every event
      published, and whether (and how) the loop has stopped. */
  datatype Run = Run(session: Session, sent: seq<Message>, published: seq<Publication>, ending: Ending)

  /** One iteration of the loop in `start_websocket`. Once the loop has stopped, further
      wakeups change nothing. */
  function Wake(bot: Bot, r: Run, w: Wakeup): Run {
    if r.ending != Running then r
    else
      match w
      case Tick => r.(sent := r.sent + [HeartbeatMessage(r.session.sequence)])
      case StreamEnd => r.(ending := Failed(StreamFailed))
      case Inbound(f) =>
        match HandleWs(bot, r.session, f)
        case Failure(e) =>
          // A failing text frame has already stored its `s` in the bot.
          r.(session := if f.Text? then Recorded(r.session, f.doc) else r.session, ending := Failed(e))
        case Success(x) =>
          Run(x.session,
              r.sent + (if x.reply.Some? then [x.reply.value] else []),
              r.published + x.published,
              if x.proceed then Running else Closed)
  }

  function Loop(bot: Bot, r: Run, trace: seq<Wakeup>): Run
    decreases |trace|
  {
    if |trace| == 0 then r else Loop(bot, Wake(bot, r, trace[0]), trace[1..])
  }

  /** `start_websocket` after the socket is open: publish `Init`, then run the loop from
      the bot's session over the trace. */
  function StartWebsocket(bot: Bot, trace: seq<Wakeup>): Run {
    Loop(bot, Run(bot.session, [], [OfEvent(Init)], Running), trace)
  }

  lemma {:induction false} LoopAppend(bot: Bot, r: Run, a: seq<Wakeup>, b: seq<Wakeup>)
    ensures Loop(bot, r, a + b) == Loop(bot, Loop(bot, r, a), b)
    decreases |a|
  {
    if |a| == 0 {
      assert a + b == b;
    } else {
      assert (a + b)[0] == a[0] && (a + b)[1..] == a[1..] + b;
      LoopAppend(bot, Wake(bot, r, a[0]), a[1..], b);
    }
  }

  lemma LoopSingle(bot: Bot, r: Run, w: Wakeup)
    ensures Loop(bot, r, [w]) == Wake(bot, r, w)
  {
    assert [w][1..] == [];
    assert Loop(bot, Wake(bot, r, w), []) == Wake(bot, r, w);
  }

  lemma {:induction false} StoppedStaysStopped(bot: Bot, r: Run, trace: seq<Wakeup>)
    requires r.ending != Running
    ensures Loop(bot, r, trace) == r
    decreases |trace|
  {
    if |trace| > 0 {
      StoppedStaysStopped(bot, r, trace[1..]);
    }
  }

  /** After a close frame nothing more happens: the loop has stopped with `Closed`, sends
      and publishes nothing for the close itself, and ignores every later wakeup. */
  lemma CloseIsFinal(bot: Bot, r: Run, pre: seq<Wakeup>, reason: Option<CloseReason>, post: seq<Wakeup>)
    ensures var before := Loop(bot, r, pre);
      var closed := Loop(bot, r, pre + [Inbound(Close(reason))]);
      && Loop(bot, r, pre + [Inbound(Close(reason))] + post) == closed
      && (before.ending == Running ==> closed == before.(ending := Closed))
  {
    var c := [Inbound(Close(reason))];
    LoopAppend(bot, r, pre, c);
    LoopAppend(bot, r, pre + c, post);
    var closed := Loop(bot, r, pre + c);
    assert Loop(bot, Loop(bot, r, pre), c) == Wake(bot, Loop(bot, r, pre), c[0]);
    assert closed.ending != Running;
    StoppedStaysStopped(bot, closed, post);
  }

  /** Each tick of a running loop sends exactly one heartbeat, carrying the current
      sequence number, and changes nothing else. */
  lemma TickSendsHeartbeat(bot: Bot, r: Run, pre: seq<Wakeup>)
    ensures var before := Loop(bot, r, pre);
      before.ending == Running ==>
        Loop(bot, r, pre + [Tick]) ==
          before.(sent := before.sent + [HeartbeatMessage(before.session.sequence)])
  {
    LoopAppend(bot, r, pre, [Tick]);
  }

  /** The sequence number a wakeup reports: the `s` of a text frame that decodes. */
  function FrameSequence(w: Wakeup): Option<U64> {
    if w.Inbound? && w.frame.Text? && w.frame.doc.Some? && DecodeEnvelope(w.frame.doc.value).Some?
    then DecodeEnvelope(w.frame.doc.value).value.s
    else None
  }

  /** Reference definition of sequence tracking: the last sequence number reported in the
      trace, or the initial one if none was. */
  function LastSequence(initial: Option<U64>, trace: seq<Wakeup>): Option<U64>
    decreases |trace|
  {
    if |trace| == 0 then initial
    else if FrameSequence(trace[|trace| - 1]).Some? then FrameSequence(trace[|trace| - 1])
    else LastSequence(initial, trace[..|trace| - 1])
  }

  /** One wakeup of a running loop leaves the sequence number the frame reported, if any,
      whether the loop goes on or stops at that frame. */
  lemma WakeSequence(bot: Bot, r: Run, w: Wakeup)
    requires r.ending == Running
    ensures Wake(bot, r, w).session.sequence ==
      (if FrameSequence(w).Some? then FrameSequence(w) else r.session.sequence)
  {
    if w.Inbound? && w.frame.Text? && w.frame.doc.Some? && DecodeEnvelope(w.frame.doc.value).Some? {
      TextTracksSequence(bot, r, w.frame.doc.value);
    }
  }

  /** While the loop runs, its sequence number is the last one the server reported, and
      so the next heartbeat carries that value. */
  lemma {:induction false} SequenceTracking(bot: Bot, r: Run, trace: seq<Wakeup>)
    requires r.ending == Running
    ensures var out := Loop(bot, r, trace);
      out.ending == Running ==>
        && out.session.sequence == LastSequence(r.session.sequence, trace)
        && Loop(bot, r, trace + [Tick]).sent ==
             out.sent + [HeartbeatMessage(LastSequence(r.session.sequence, trace))]
    decreases |trace|
  {
    TickSendsHeartbeat(bot, r, trace);
    if |trace| > 0 {
      var p := trace[..|trace| - 1];
      var w := trace[|trace| - 1];
      assert trace == p + [w];
      LoopAppend(bot, r, p, [w]);
      var mid := Loop(bot, r, p);
      assert Loop(bot, r, trace) == Wake(bot, mid, w);
      if Loop(bot, r, trace).ending == Running {
        assert mid.ending == Running;
        SequenceTracking(bot, r, p);
        WakeSequence(bot, mid, w);
      }
    }
  }

  /** A message the client may send: a heartbeat (op 1, no `s`, no `t`), its Identify, or
      a pong. */
  predicate ClientMessage(bot: Bot, m: Message) {
    || m == IdentifyMessage(bot)
    || m.PongMessage?
    || (m.TextMessage? && DecodeEnvelope(m.doc).Some? && DecodeEnvelope(m.doc).value.op == HEARTBEAT
        && DecodeEnvelope(m.doc).value.s.None? && DecodeEnvelope(m.doc).value.t.None?)
  }

  /** How many messages a wakeup makes a running loop send: one per tick, per ping, and per
      well-formed Hello; none otherwise. */
  function Replies(bot: Bot, w: Wakeup): nat {
    match w
    case Tick => 1
    case StreamEnd => 0
    case Inbound(f) =>
      if f.Ping? then 1
      else if f.Text? && f.doc.Some? && DecodeEnvelope(f.doc.value).Some?
              && DecodeEnvelope(f.doc.value).value.op == HELLO
              && DecodeHello(DecodeEnvelope(f.doc.value).value.d).Some?
              && DecodeHello(DecodeEnvelope(f.doc.value).value.d).value > 0 then 1
      else 0
  }

  function TotalReplies(bot: Bot, trace: seq<Wakeup>): nat
    decreases |trace|
  {
    if |trace| == 0 then 0 else Replies(bot, trace[0]) + TotalReplies(bot, trace[1..])
  }

  /** From `r` to `n` the loop only appended: client messages to what it sent, no `Init`
      to what it published, and, if still running, `count` messages. */
  predicate Appends(bot: Bot, r: Run, n: Run, count: nat) {
    && r.sent <= n.sent && r.published <= n.published
    && (forall i :: |r.sent| <= i < |n.sent| ==> ClientMessage(bot, n.sent[i]))
    && (forall i :: |r.published| <= i < |n.published| ==> n.published[i] != OfEvent(Init))
    && (n.ending == Running ==> |n.sent| == |r.sent| + count)
  }

  lemma WakeOutput(bot: Bot, r: Run, w: Wakeup)
    requires r.ending == Running
    ensures Appends(bot, r, Wake(bot, r, w), Replies(bot, w))
  {
    match w
    case Tick => TickOutput(bot, r);
    case StreamEnd =>
    case Inbound(f) => InboundOutput(bot, r, f);
  }

  lemma TickOutput(bot: Bot, r: Run)
    requires r.ending == Running
    ensures Appends(bot, r, Wake(bot, r, Tick), 1)
  {
    var n := Wake(bot, r, Tick);
    HeartbeatWire(r.session.sequence);
    assert n.sent[|r.sent|] == HeartbeatMessage(r.session.sequence);
  }

  lemma InboundOutput(bot: Bot, r: Run, f: Frame)
    requires r.ending == Running
    ensures Appends(bot, r, Wake(bot, r, Inbound(f)), Replies(bot, Inbound(f)))
  {
    var n := Wake(bot, r, Inbound(f));
    ReactionOutput(bot, r.session, f);
    var res := HandleWs(bot, r.session, f);
    if res.Success? {
      var x := res.value;
      var extra := if x.reply.Some? then [x.reply.value] else [];
      AppendOutput(bot, r, n, extra, x.published, Replies(bot, Inbound(f)));
    } else {
      AppendOutput(bot, r, n, [], [], Replies(bot, Inbound(f)));
    }
  }

  /** Appending client messages and non-`Init` publications is an `Appends` step. */
  lemma AppendOutput(bot: Bot, r: Run, n: Run, extra: seq<Message>, pubs: seq<Publication>, count: nat)
    requires n.sent == r.sent + extra && n.published == r.published + pubs
    requires forall m :: m in extra ==> ClientMessage(bot, m)
    requires forall p :: p in pubs ==> p != OfEvent(Init)
    requires n.ending == Running ==> |extra| == count
    ensures Appends(bot, r, n, count)
  {
    forall i | |r.sent| <= i < |n.sent| ensures ClientMessage(bot, n.sent[i]) {
      assert n.sent[i] == extra[i - |r.sent|] && extra[i - |r.sent|] in extra;
    }
    forall i | |r.published| <= i < |n.published| ensures n.published[i] != OfEvent(Init) {
      assert n.published[i] == pubs[i - |r.published|] && pubs[i - |r.published|] in pubs;
    }
  }

  /** What one frame makes the loop send and publish: the reply, if any, is a client
      message and exists exactly when the frame calls for one, and `Init` is never among
      the publications. */
  lemma ReactionOutput(bot: Bot, session: Session, f: Frame)
    ensures var res := HandleWs(bot, session, f);
      res.Success? ==>
        && (res.value.reply.Some? ==> ClientMessage(bot, res.value.reply.value))
        && (res.value.reply.Some? <==> Replies(bot, Inbound(f)) == 1)
        && (forall p :: p in res.value.published ==> p != OfEvent(Init))
  {
    if f.Text? && f.doc.Some? && DecodeEnvelope(f.doc.value).Some? {
      var env := DecodeEnvelope(f.doc.value).value;
      if env.op == GATEWAY && env.t.Some? {
        DispatchNeverInit(bot.decoders, env.t.value, env.d);
      }
    }
  }

  /** Over any trace: the loop only appends to its history, everything it sends is a
      client message, it never publishes `Init` itself, and while it is running it has
      sent exactly one message per tick, ping and well-formed Hello. */
  lemma {:induction false} LoopOutput(bot: Bot, r: Run, trace: seq<Wakeup>)
    ensures var out := Loop(bot, r, trace);
      && r.sent <= out.sent && r.published <= out.published
      && (forall i :: |r.sent| <= i < |out.sent| ==> ClientMessage(bot, out.sent[i]))
      && (forall i :: |r.published| <= i < |out.published| ==> out.published[i] != OfEvent(Init))
      && (out.ending == Running ==> |out.sent| == |r.sent| + TotalReplies(bot, trace))
    decreases |trace|
  {
    if |trace| > 0 {
      if r.ending != Running {
        StoppedStaysStopped(bot, r, trace);
      } else {
        var n := Wake(bot, r, trace[0]);
        WakeOutput(bot, r, trace[0]);
        LoopOutput(bot, n, trace[1..]);
        var out := Loop(bot, n, trace[1..]);
        if out.ending == Running && n.ending != Running {
          StoppedStaysStopped(bot, n, trace[1..]);
        }
      }
    }
  }

  /** `Init` is published once, first, before anything the loop publishes. */
  lemma InitPublishedOnce(bot: Bot, trace: seq<Wakeup>)
    ensures var out := StartWebsocket(bot, trace);
      && |out.published| >= 1 && out.published[0] == OfEvent(Init)
      && forall i :: 1 <= i < |out.published| ==> out.published[i] != OfEvent(Init)
  {
    LoopOutput(bot, Run(bot.session, [], [OfEvent(Init)], Running), trace);
  }

  function Ticks(n: nat): (t: seq<Wakeup>)
    ensures |t| == n && forall i :: 0 <= i < n ==> t[i] == Tick
  {
    seq(n, _ => Tick)
  }

  function Heartbeats(sequence: Option<U64>, n: nat): (s: seq<Message>)
    ensures |s| == n && forall i :: 0 <= i < n ==> s[i] == HeartbeatMessage(sequence)
  {
    seq(n, _ => HeartbeatMessage(sequence))
  }

  lemma {:induction false} TicksOnly(bot: Bot, r: Run, n: nat)
    requires r.ending == Running
    ensures Loop(bot, r, Ticks(n)) == r.(sent := r.sent + Heartbeats(r.session.sequence, n))
    decreases n
  {
    if n == 0 {
      assert r.sent + Heartbeats(r.session.sequence, 0) == r.sent;
    } else {
      assert Ticks(n) == Ticks(n - 1) + [Tick];
      LoopAppend(bot, r, Ticks(n - 1), [Tick]);
      TicksOnly(bot, r, n - 1);
      assert Heartbeats(r.session.sequence, n) ==
        Heartbeats(r.session.sequence, n - 1) + [HeartbeatMessage(r.session.sequence)];
    }
  }

  /** The Hello frame a server opens with. */
  function HelloFrame(intervalMs: U64): Wakeup {
    Inbound(Text(Some(EncodeEnvelope(Envelope(None, None, HELLO, HelloPayload(intervalMs))))))
  }

  /** The handshake scenario: Hello, then `n` ticks, then close, then anything. The client
      sends exactly one Identify followed by `n` heartbeats, adopts the announced
      interval, publishes only `Init`, and stops at the close. */
  lemma HandshakeScenario(bot: Bot, intervalMs: U64, n: nat, reason: Option<CloseReason>, rest: seq<Wakeup>)
    requires intervalMs > 0
    ensures var out := StartWebsocket(bot, [HelloFrame(intervalMs)] + Ticks(n) + [Inbound(Close(reason))] + rest);
      && out.sent == [IdentifyMessage(bot)] + Heartbeats(bot.session.sequence, n)
      && out.published == [OfEvent(Init)]
      && out.ending == Closed
      && out.session.durationMs == intervalMs
      && out.session.interval.periodMs == intervalMs
  {
    var r0 := Run(bot.session, [], [OfEvent(Init)], Running);
    var hello := Envelope(None, None, HELLO, HelloPayload(intervalMs));
    EnvelopeRoundTrip(hello);
    HelloRoundTrip(intervalMs);
    var r1 := Loop(bot, r0, [HelloFrame(intervalMs)]);
    LoopSingle(bot, r0, HelloFrame(intervalMs));
    assert r1.sent == [IdentifyMessage(bot)];
    assert r1.session.sequence == bot.session.sequence;
    LoopAppend(bot, r0, [HelloFrame(intervalMs)], Ticks(n));
    TicksOnly(bot, r1, n);
    var pre := [HelloFrame(intervalMs)] + Ticks(n);
    CloseIsFinal(bot, r0, pre, reason, rest);
  }

  /** A server that opens with a zero interval ends the session at once: nothing is sent,
      only `Init` has been published, and whatever follows is ignored. */
  lemma ZeroHelloIsFatal(bot: Bot, rest: seq<Wakeup>)
    ensures var out := StartWebsocket(bot, [HelloFrame(0)] + rest);
      && out.sent == [] && out.published == [OfEvent(Init)]
      && out.ending == Failed(ZeroInterval)
  {
    var r0 := Run(bot.session, [], [OfEvent(Init)], Running);
    EnvelopeRoundTrip(Envelope(None, None, HELLO, HelloPayload(0)));
    HelloRoundTrip(0);
    LoopSingle(bot, r0, HelloFrame(0));
    var r1 := Loop(bot, r0, [HelloFrame(0)]);
    assert r1 == r0.(ending := Failed(ZeroInterval));
    LoopAppend(bot, r0, [HelloFrame(0)], rest);
    StoppedStaysStopped(bot, r1, rest);
  }
}
