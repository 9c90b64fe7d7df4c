/**
 Request dispatch (dpdkd/src/daemon.c), health reporting (dpdkd/src/health.c) and the per-connection loop
 (dpdkd/src/ipc_server.c) on top of the codec.
 */
module IpcServer {
  import opened JsonGrammar
  import opened JsonScanner
  import opened RequestParser
  import opened JsonEscape
  import opened Responses
  import opened Framing
  import Connection
  import opened Counters
  import Burst

  // ----- the daemon's state -----

  datatype Datapath = Datapath(started: bool, portsReady: bool, paused: bool, ingress: Port, egress: Port,
                               runningMessage: string)

  datatype Daemon = Daemon(datapath: Datapath, health: Health)

  function PortList(dp: Datapath): (ports: seq<Port>) {
    [dp.ingress, dp.egress]
  }

  /** strncpy and snprintf into a message buffer keep what fits before the NUL. */
  function Truncate(s: string): (t: string)
    ensures |t| < MESSAGE_LEN && t <= s
  {
    if |s| < MESSAGE_LEN then s else s[..MESSAGE_LEN - 1]
  }

  function RunningMessage(dp: Datapath): (m: string)
    ensures |m| < MESSAGE_LEN
  {
    if dp.runningMessage == [] then Truncate("configured TAP ports " + dp.ingress.name + "/" + dp.egress.name)
    else Truncate(dp.runningMessage)
  }

  const PAUSED_MESSAGE := "datapath forwarding loop paused"

  function RefreshStarted(d: Daemon): (d': Daemon) {
    var dp := d.datapath;
    d.(health := Health(if dp.portsReady then Running else Degraded, RunningMessage(dp), d.health.ruleVersion,
                        dp.portsReady, dp.paused))
  }

  function RefreshPaused(d: Daemon): (d': Daemon) {
    d.(health := Health(Paused, PAUSED_MESSAGE, d.health.ruleVersion, d.datapath.portsReady, true))
  }

  // ----- dispatch -----

  datatype Reply = Granted(text: string) | Denied(code: ErrorCode, message: string)

  function Rendered(r: Option<string>, failure: string): (reply: Reply) {
    if r.Some? then Granted(r.value) else Denied(Internal, failure)
  }

  predicate Active(dp: Datapath) {
    dp.started && dp.portsReady
  }

  const INACTIVE := Denied(StateConflict, "datapath forwarding loop is not active")

  datatype Command =
    | Ping | GetVersion | GetHealth | GetPorts | GetStats | ResetStats | PauseDatapath | ResumeDatapath | Unknown

  /** The strcmp chain over the command names. */
  function CommandOf(cmd: string): (c: Command) {
    if cmd == "ping" then Ping
    else if cmd == "get_version" then GetVersion
    else if cmd == "get_health" then GetHealth
    else if cmd == "get_ports" then GetPorts
    else if cmd == "get_stats" then GetStats
    else if cmd == "reset_stats" then ResetStats
    else if cmd == "pause_datapath" then PauseDatapath
    else if cmd == "resume_datapath" then ResumeDatapath
    else Unknown
  }

  /** The effect of a command on the daemon, and its reply; the counters are whatever the worker made them. */
  function Dispatch(d: Daemon, cmd: Command, stats: Stats): (r: (Daemon, Reply)) {
    match cmd
    case Ping => (d, Rendered(AckPayload("pong", PAYLOAD_BUFFER), "failed to render pong payload"))
    case GetVersion => (d, Rendered(VersionPayload(PAYLOAD_BUFFER), "failed to render version payload"))
    case GetHealth => (d, Rendered(HealthPayload(d.health, PAYLOAD_BUFFER), "failed to render health payload"))
    case GetPorts => (d, Rendered(PortsPayload(PortList(d.datapath), PAYLOAD_BUFFER), "failed to render ports payload"))
    case GetStats => (d, Rendered(StatsPayload(stats, PAYLOAD_BUFFER), "failed to render stats payload"))
    case ResetStats =>
      (d, Rendered(AckPayload(RESET_ACK, PAYLOAD_BUFFER), "failed to render reset-stats acknowledgement"))
    case PauseDatapath =>
      if !Active(d.datapath) then (d, INACTIVE)
      else
        (RefreshPaused(d.(datapath := d.datapath.(paused := true))),
         Rendered(AckPayload(PauseAck(!d.datapath.paused), PAYLOAD_BUFFER), "failed to render pause acknowledgement"))
    case ResumeDatapath =>
      if !Active(d.datapath) then (d, INACTIVE)
      else
        (RefreshStarted(d.(datapath := d.datapath.(paused := false))),
         Rendered(AckPayload(ResumeAck(d.datapath.paused), PAYLOAD_BUFFER), "failed to render resume acknowledgement"))
    case Unknown => (d, UNKNOWN)
  }

  const UNKNOWN := Denied(UnknownCommand, "unknown IPC command")
  const RESET_ACK := "datapath counters reset"

  function PauseAck(changed: bool): (m: string) {
    if changed then "datapath forwarding loop paused" else "datapath forwarding loop is already paused"
  }

  function ResumeAck(changed: bool): (m: string) {
    if changed then "datapath forwarding loop resumed" else "datapath forwarding loop is already running"
  }

  /** The counters after a command: only a reset touches them. */
  function CountersAfter(cmd: Command, stats: Stats): (s: Stats) {
    if cmd.ResetStats? then Burst.NO_STATS else stats
  }

  /** The daemon as the C structs it updates in place. */
  class Process {
    var datapath: Datapath
    var health: Health
    const counters: Tracker

    constructor (datapath: Datapath, health: Health, counters: Tracker)
      ensures State() == Daemon(datapath, health) && this.counters == counters
    {
      this.datapath, this.health, this.counters := datapath, health, counters;
    }

    function State(): (d: Daemon)
      reads this
    {
      Daemon(datapath, health)
    }

    /** Sets the flag and says whether that changed it; refused, without effect, when forwarding is not active. */
    method SetPaused(paused: bool) returns (denied: bool, changed: bool)
      modifies this`datapath
      ensures denied <==> !Active(old(datapath))
      ensures datapath == if denied then old(datapath) else old(datapath).(paused := paused)
      ensures changed <==> datapath != old(datapath)
    {
      denied, changed := true, false;
      if datapath.started && datapath.portsReady {
        var wasPaused := datapath.paused;
        datapath := datapath.(paused := paused);
        denied, changed := false, wasPaused != paused;
      }
    }

    method RefreshStartedHealth()
      modifies this`health
      ensures State() == RefreshStarted(old(State()))
    {
      var message := RunningMessage(datapath);
      health := health.(portsReady := datapath.portsReady);
      health := health.(paused := datapath.paused);
      health := health.(state := if datapath.portsReady then Running else Degraded, message := Truncate(message));
    }

    method RefreshPausedHealth()
      modifies this`health
      ensures State() == RefreshPaused(old(State()))
    {
      health := health.(portsReady := datapath.portsReady);
      health := health.(paused := true);
      health := health.(state := Paused, message := Truncate(PAUSED_MESSAGE));
    }

    /** Every command, on the structs in place; the counters are read and reset through their tracker. */
    method DispatchRequest(cmd: string) returns (reply: Reply)
      requires counters.initialized
      modifies this, counters
      ensures (State(), reply) == Dispatch(old(State()), CommandOf(cmd), old(counters.snapshot))
      ensures counters.initialized && counters.snapshot == CountersAfter(CommandOf(cmd), old(counters.snapshot))
    {
      var c := CommandOf(cmd);
      if c.PauseDatapath? {
        reply := Pause();
      } else if c.ResumeDatapath? {
        reply := Resume();
      } else if c.Unknown? {
        reply := UNKNOWN;
      } else {
        reply := Report(c);
      }
    }

    /** The commands that leave datapath and health alone. */
    method Report(c: Command) returns (reply: Reply)
      requires counters.initialized && !c.PauseDatapath? && !c.ResumeDatapath? && !c.Unknown?
      modifies counters
      ensures reply == Dispatch(State(), c, old(counters.snapshot)).1
      ensures counters.initialized && counters.snapshot == CountersAfter(c, old(counters.snapshot))
    {
      var text;
      match c
      case Ping =>
        text := AckPayload("pong", PAYLOAD_BUFFER);
        reply := Rendered(text, "failed to render pong payload");
      case GetVersion =>
        text := VersionPayload(PAYLOAD_BUFFER);
        reply := Rendered(text, "failed to render version payload");
      case GetHealth =>
        text := HealthPayload(health, PAYLOAD_BUFFER);
        reply := Rendered(text, "failed to render health payload");
      case GetPorts =>
        text := RenderPorts([datapath.ingress, datapath.egress], PAYLOAD_BUFFER);
        reply := Rendered(text, "failed to render ports payload");
      case GetStats =>
        var snapshot := counters.Snapshot();
        text := StatsPayload(snapshot, PAYLOAD_BUFFER);
        reply := Rendered(text, "failed to render stats payload");
      case ResetStats =>
        counters.Reset();
        text := AckPayload(RESET_ACK, PAYLOAD_BUFFER);
        reply := Rendered(text, "failed to render reset-stats acknowledgement");
    }

    method Pause() returns (reply: Reply)
      modifies this
      ensures forall stats :: (State(), reply) == Dispatch(old(State()), PauseDatapath, stats)
    {
      var denied, changed := SetPaused(true);
      if denied {
        return INACTIVE;
      }
      RefreshPausedHealth();
      reply := Rendered(AckPayload(PauseAck(changed), PAYLOAD_BUFFER), "failed to render pause acknowledgement");
    }

    method Resume() returns (reply: Reply)
      modifies this
      ensures forall stats :: (State(), reply) == Dispatch(old(State()), ResumeDatapath, stats)
    {
      var denied, changed := SetPaused(false);
      if denied {
        return INACTIVE;
      }
      RefreshStartedHealth();
      reply := Rendered(AckPayload(ResumeAck(changed), PAYLOAD_BUFFER), "failed to render resume acknowledgement");
    }
  }

  // ----- what holds between any two requests -----

  /** The reported health is a function of the datapath. */
  predicate HealthFollows(d: Daemon) {
    && d.health.portsReady == d.datapath.portsReady
    && d.health.paused == d.datapath.paused
    && d.health.state == (if d.datapath.paused then Paused else if d.datapath.portsReady then Running else Degraded)
    && d.health.message == if d.datapath.paused then PAUSED_MESSAGE else RunningMessage(d.datapath)
  }

  predicate Serving(d: Daemon) {
    && WfPort(d.datapath.ingress) && WfPort(d.datapath.egress)
    && d.datapath.started && (d.datapath.paused ==> d.datapath.portsReady)
    && d.health.ruleVersion < U32
    && HealthFollows(d)
  }

  /** The daemon as it enters the server loop: started, not paused, health refreshed. */
  lemma ServingAtStart(dp: Datapath, health: Health)
    requires WfPort(dp.ingress) && WfPort(dp.egress) && dp.started && !dp.paused
    requires health.ruleVersion < U32
    ensures Serving(RefreshStarted(Daemon(dp, health)))
  {
  }

  /** Every command keeps the health a function of the datapath. */
  lemma DispatchKeepsServing(d: Daemon, cmd: Command, stats: Stats)
    requires Serving(d)
    ensures Serving(Dispatch(d, cmd, stats).0)
  {
  }

  /** A command changes the daemon exactly when it flips the pause flag of an active datapath. */
  lemma OnlyFlipsChange(d: Daemon, cmd: Command, stats: Stats)
    requires Serving(d)
    ensures Dispatch(d, cmd, stats).0 != d
       <==> Active(d.datapath) && ((cmd.PauseDatapath? && !d.datapath.paused)
                                   || (cmd.ResumeDatapath? && d.datapath.paused))
    ensures Dispatch(d, cmd, stats).1.Denied? ==> Dispatch(d, cmd, stats).0 == d
    ensures var (d', reply) := Dispatch(d, cmd, stats);
            var flipped := d'.datapath.paused != d.datapath.paused;
            && (cmd.PauseDatapath? && Active(d.datapath) ==> reply == Granted(AckText(PauseAck(flipped))))
            && (cmd.ResumeDatapath? && Active(d.datapath) ==> reply == Granted(AckText(ResumeAck(flipped))))
  {
    AckReply(PauseAck(!d.datapath.paused));
    AckReply(ResumeAck(d.datapath.paused));
  }

  /** Every payload fits its buffer: a command is denied only for its name or the state of the datapath. */
  lemma DispatchRenders(d: Daemon, cmd: Command, stats: Stats)
    requires Serving(d) && WfStats(stats)
    ensures Fine(Dispatch(d, cmd, stats).1)
  {
    match cmd
    case Ping => AckReply("pong");
    case GetVersion => VersionReply();
    case GetHealth => HealthReply(d.health);
    case GetPorts => PortsReply(d.datapath);
    case GetStats => StatsReply(stats);
    case ResetStats => AckReply(RESET_ACK);
    case PauseDatapath => AckReply(PauseAck(!d.datapath.paused));
    case ResumeDatapath => AckReply(ResumeAck(d.datapath.paused));
    case Unknown =>
  }

  /** A granted reply is an object text that fits; the only denials are inactive forwarding and unknown command. */
  ghost predicate Fine(reply: Reply) {
    match reply
    case Granted(text) => IsPayload(text)
    case Denied(_, _) => reply == INACTIVE || reply == UNKNOWN
  }

  ghost predicate IsPayload(text: string) {
    |text| < PAYLOAD_BUFFER && IsObject(text, 3)
  }

  lemma VersionReply()
    ensures VersionPayload(PAYLOAD_BUFFER) == Some(VersionText()) && IsPayload(VersionText())
  {
    VersionFits();
    VersionIsObject();
    Deeper(VersionText(), 1);
  }

  lemma HealthReply(h: Health)
    requires WfHealth(h)
    ensures HealthPayload(h, PAYLOAD_BUFFER) == Some(HealthText(h)) && IsPayload(HealthText(h))
  {
    HealthFits(h);
    HealthIsObject(h);
    Deeper(HealthText(h), 2);
  }

  lemma PortsReply(dp: Datapath)
    requires WfPort(dp.ingress) && WfPort(dp.egress)
    ensures PortsPayload(PortList(dp), PAYLOAD_BUFFER) == Some(PortsText(PortList(dp)))
            && IsPayload(PortsText(PortList(dp)))
  {
    PortsFit(PortList(dp));
    PortsIsObject(PortList(dp));
  }

  lemma StatsReply(stats: Stats)
    requires WfStats(stats)
    ensures StatsPayload(stats, PAYLOAD_BUFFER) == Some(StatsText(stats)) && IsPayload(StatsText(stats))
  {
    StatsFit(stats);
    StatsIsObject(stats);
  }

  lemma Deeper(t: string, d: nat)
    requires IsObject(t, d) && d <= 3
    ensures IsObject(t, 3)
  {
    var m :| IsText(t, Obj(m)) && Depth(Obj(m)) <= d;
  }

  lemma AckReply(message: string)
    requires |message| < MESSAGE_LEN
    ensures AckPayload(message, PAYLOAD_BUFFER) == Some(AckText(message))
    ensures IsPayload(AckText(message))
  {
    AckFits(message);
    AckIsObject(message);
    Deeper(AckText(message), 1);
  }

  // ----- one request, one response -----

  function ScanMessage(e: ScanError): (m: string) {
    match e
    case ExpectedString => "expected a JSON string"
    case UnterminatedEscape => "unterminated JSON escape sequence"
    case UnsupportedEscape => "unsupported JSON escape sequence"
    case StringTooLong => "JSON string exceeds the allowed size"
    case UnterminatedString => "unterminated JSON string"
    case NestingTooDeep => "JSON nesting exceeds the supported limit"
    case ExpectedObject => "expected a JSON object"
    case ExpectedColon => "expected ':' after object key"
    case ExpectedMemberEnd => "expected ',' or '}' in object"
    case UnterminatedObject => "unterminated JSON object"
    case ExpectedArray => "expected a JSON array"
    case ExpectedItemEnd => "expected ',' or ']' in array"
    case UnterminatedArray => "unterminated JSON array"
    case InvalidLiteral => "invalid JSON literal"
    case InvalidNumber => "invalid JSON number"
    case UnexpectedEnd => "unexpected end of JSON input"
    case UnexpectedToken => "unexpected JSON token"
  }

  function RequestMessage(e: RequestError): (m: string)
    ensures 0 < |m| < MESSAGE_LEN
  {
    match e
    case Scanner(error) => ScanMessage(error)
    case NotAnObject => "request must be a JSON object"
    case KeyWithoutColon => "expected ':' after request key"
    case DuplicateId => "duplicate request id field"
    case DuplicateCmd => "duplicate request command field"
    case DuplicatePayload => "duplicate request payload field"
    case PayloadNotObject => "request payload must be a JSON object"
    case UnexpectedField => "unexpected top-level request field"
    case ExpectedFieldEnd => "expected ',' or '}' in request object"
    case TrailingData => "request contains trailing data"
    case MissingField => "request must include id, cmd, and payload"
  }

  function RequestCode(e: RequestError): (c: ErrorCode) {
    if e.PayloadNotObject? then InvalidPayload else InvalidRequest
  }

  /** What the connection loop sends for one frame; None would close the connection. */
  function Respond(d: Daemon, frame: string, stats: Stats): (r: (Daemon, Option<string>)) {
    match ParseRequest(frame)
    case Refused(error, id) => (d, MakeError(id, RequestCode(error), RequestMessage(error), RESPONSE_BUFFER))
    case Request(id, cmd) =>
      var (d', reply) := Dispatch(d, CommandOf(cmd), stats);
      match reply
      case Denied(code, message) => (d', MakeError(id, code, message, RESPONSE_BUFFER))
      case Granted(text) =>
        var success := MakeSuccess(id, text, RESPONSE_BUFFER);
        if success.Some? then (d', success)
        else (d', MakeError(id, Internal, "JSON output buffer is too small", RESPONSE_BUFFER))
  }

  /** The id a request carries, as far as the parser got. */
  function IdOfFrame(frame: string): (id: string) {
    match ParseRequest(frame)
    case Refused(_, id) => id
    case Request(id, _) => id
  }

  lemma {:induction false} BodyStored(s: string, capacity: nat, out: string)
    requires |out| < capacity
    ensures match ScanBody(s, Some(capacity), out)
            case Read(o, _) => |o| < capacity
            case Bad(_, o) => |o| < capacity
    decreases |s|
  {
    if s != [] && s[0] != '\"' && !Full(Some(capacity), out) {
      if s[0] == '\\' {
        if |s| > 1 && Unescape(s[1]).Some? {
          BodyStored(s[2..], capacity, out + [Unescape(s[1]).value]);
        }
      } else {
        BodyStored(s[1..], capacity, out + [s[0]]);
      }
    }
  }

  lemma FieldKeepsIdShort(s: string, p: Progress)
    requires |IdSoFar(p)| <= MAX_ID_LEN
    ensures match ParseField(s, p)
            case FieldRead(p', _) => |IdSoFar(p')| <= MAX_ID_LEN
            case FieldBad(_, id) => |id| <= MAX_ID_LEN
  {
    var key := ScanString(s, Some(KEY_BUFFER));
    if key.Read? && StartsWith(SkipWs(key.rest), ':') {
      var t := SkipWs(SkipWs(key.rest)[1..]);
      if t != [] {
        BodyStored(t[1..], ID_BUFFER, []);
      }
    }
  }

  lemma {:induction false} IdsAreShort(s: string, p: Progress)
    requires |IdSoFar(p)| <= MAX_ID_LEN
    ensures match ParseFields(s, p)
            case Request(id, _) => |id| <= MAX_ID_LEN
            case Refused(_, id) => |id| <= MAX_ID_LEN
    decreases |s|
  {
    if s != [] {
      var t := SkipWs(s);
      if !StartsWith(t, '}') {
        FieldKeepsIdShort(t, p);
        var f := ParseField(t, p);
        if f.FieldRead? {
          var x := SkipWs(f.rest);
          if StartsWith(x, ',') {
            IdsAreShort(x[1..], f.progress);
          }
        }
      }
    }
  }

  lemma FrameIdIsShort(frame: string)
    ensures |IdOfFrame(frame)| <= MAX_ID_LEN
  {
    var t := SkipWs(frame);
    if StartsWith(t, '{') {
      IdsAreShort(t[1..], NOTHING_YET);
    }
  }

  /** A response that fits its frame, is one complete JSON object and carries the id it answers. */
  ghost predicate Answers(response: string, id: string) {
    && GoodLength(|response|)
    && IsObject(response, 4) && SkipValue(response, 1) == Ok([])
    && AnswersId(response, id)
  }

  lemma ErrorAnswers(id: string, code: ErrorCode, message: string)
    requires |id| <= MAX_ID_LEN && |message| < MESSAGE_LEN
    ensures var r := MakeError(id, code, message, RESPONSE_BUFFER);
            r.Some? && Answers(r.value, if id == [] then UNKNOWN_ID else id)
  {
    ErrorFits(id, code, message);
    var safeId := if id == [] then UNKNOWN_ID else id;
    var safeMessage := if message == [] then "internal error" else message;
    ErrorIsObject(safeId, code, safeMessage);
    var t := ErrorText(safeId, code, safeMessage);
    ObjectIsScanned(t, 2);
    ErrorAnswersId(safeId, code, safeMessage);
    var m :| IsText(t, Obj(m)) && Depth(Obj(m)) <= 2;
  }

  lemma SuccessAnswers(id: string, payload: string)
    requires |id| <= MAX_ID_LEN && |payload| < PAYLOAD_BUFFER && IsObject(payload, 3)
    ensures var r := MakeSuccess(id, payload, RESPONSE_BUFFER); r.Some? && Answers(r.value, id)
  {
    SuccessFits(id, payload);
    SuccessIsObject(id, payload, 3);
    ObjectIsScanned(SuccessText(id, payload), 4);
    SuccessAnswersId(id, payload);
  }

  /** The response carries the id of its frame, or "unknown" when there is none. */
  ghost predicate AnswersFrame(response: string, frame: string) {
    var id := IdOfFrame(frame);
    Answers(response, id) || (id == [] && Answers(response, UNKNOWN_ID))
  }

  /** Every frame gets a response, whatever it holds, and the id that was parsed comes back in it. */
  lemma EveryFrameAnswered(d: Daemon, frame: string, stats: Stats)
    requires Serving(d) && WfStats(stats)
    ensures var (d', r) := Respond(d, frame, stats); Serving(d') && r.Some? && AnswersFrame(r.value, frame)
  {
    FrameIdIsShort(frame);
    match ParseRequest(frame)
    case Refused(error, id) => ErrorAnswers(id, RequestCode(error), RequestMessage(error));
    case Request(id, cmd) =>
      var c := CommandOf(cmd);
      DispatchKeepsServing(d, c, stats);
      DispatchRenders(d, c, stats);
      match Dispatch(d, c, stats).1
      case Denied(code, message) => ErrorAnswers(id, code, message);
      case Granted(text) => SuccessAnswers(id, text);
  }

  // ----- a whole connection -----

  const RESPOND: Connection.Handler<Daemon, Stats> := (d, frame, stats) => Respond(d, frame, stats)
  ghost const SERVING := (d: Daemon) => Serving(d)
  ghost const COUNTERS := (s: Stats) => WfStats(s)
  ghost const ANSWERS: (string, string) -> bool := (frame, response) => AnswersFrame(response, frame)

  lemma DaemonIsGood()
    ensures Connection.Good(RESPOND, SERVING, COUNTERS, ANSWERS)
  {
    forall d, frame, stats | SERVING(d) && COUNTERS(stats)
      ensures SERVING(RESPOND(d, frame, stats).0) && RESPOND(d, frame, stats).1.Some?
      ensures ANSWERS(frame, RESPOND(d, frame, stats).1.value)
    {
      EveryFrameAnswered(d, frame, stats);
    }
  }

  /**
   On every connection, for every stream of frames and whatever the worker counts meanwhile: one response
   per frame, in order, each a complete object with its frame's id; the health stays a function of the
   datapath; and the controller's reader gets back exactly those responses.
   */
  lemma ConnectionServed(d: Daemon, frames: seq<string>, seen: nat -> Stats)
    requires Serving(d) && forall i: nat :: WfStats(seen(i))
    ensures var (d', responses) := Connection.Serve(RESPOND, d, frames, seen);
            && Serving(d') && |responses| == |frames|
            && (forall i :: 0 <= i < |frames| ==> AnswersFrame(responses[i], frames[i]))
            && Frames(FrameAll(responses)) == (responses, NoHeader)
  {
    DaemonIsGood();
    Connection.OneResponsePerFrame(RESPOND, SERVING, COUNTERS, ANSWERS, d, frames, seen);
    var (d', responses) := Connection.Serve(RESPOND, d, frames, seen);
    assert SERVING(d');
    forall i | 0 <= i < |frames| ensures AnswersFrame(responses[i], frames[i]) && GoodLength(|responses[i]|) {
      assert ANSWERS(frames[i], responses[i]);
    }
    FramesOnly(responses);
  }

  /**
   The connection loop with the daemon behind it, over any byte stream in any splitting: it always answers, and
   what is on the wire are the answers to the frames it took, in order, the last one cut short only by a failed
   write. The controller's reader recovers every answer that was sent completely.
   */
  method ServeClient(rx: Receiver, tx: Sender, d: Daemon, seen: nat -> Stats)
    returns (d': Daemon, why: Connection.Closed, taken: nat, ghost responses: seq<string>)
    requires rx.Valid() && tx.Valid() && tx.sent == [] && Serving(d) && forall i: nat :: WfStats(seen(i))
    modifies rx, tx
    ensures Serving(d') && !why.HandlerFailed? && |responses| == taken
    ensures var frames := Frames(old(Bytes(rx.events))).0;
            && taken <= |frames| && (!why.WriteFailed? ==> taken == |frames|)
            && forall i :: 0 <= i < taken ==> AnswersFrame(responses[i], frames[i])
    ensures (d', responses) == Connection.Serve(RESPOND, d, Frames(old(Bytes(rx.events))).0[..taken], seen)
    ensures Connection.Sent(why, responses, tx.sent)
    ensures Frames(tx.sent).0 == if why.WriteFailed? then responses[..taken - 1] else responses
  {
    ghost var frames := Frames(Bytes(rx.events)).0;
    d', why, taken := Connection.HandleClient(rx, tx, RESPOND, d, seen);
    ConnectionServed(d, frames[..taken], seen);
    responses := Connection.Serve(RESPOND, d, frames[..taken], seen).1;
    AnswersFit(responses, frames[..taken]);
    Connection.ResponsesRecovered(why, responses, tx.sent);
  }

  lemma AnswersFit(responses: seq<string>, frames: seq<string>)
    requires |responses| == |frames| && forall i :: 0 <= i < |frames| ==> AnswersFrame(responses[i], frames[i])
    ensures forall i :: 0 <= i < |responses| ==> GoodLength(|responses[i]|)
  {
  }
}
