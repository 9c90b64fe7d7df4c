/**
 What a client finds in the answer to each command (dpdkd/src/daemon.c and dpdkd/src/ipc_server.c), from the text of the
 request to the fields of the response.
 */
module Answers {
  import opened JsonGrammar
  import opened RequestParser
  import opened Responses
  import opened ResponseFields
  import opened IpcServer

  /** A success response for `id` whose payload object has the members `payload`. */
  ghost predicate Succeeds(t: string, id: string, payload: Members) {
    exists outer :: ShowsSuccess(t, id, payload, outer)
  }

  ghost predicate ShowsSuccess(t: string, id: string, payload: Members, outer: Members) {
    && IsText(t, Obj(outer)) && TextAt(outer, "id") == Some(id) && FlagAt(outer, "ok") == Some(true)
    && Lookup(outer, "payload") == Some(Obj(payload))
  }

  /** An error response for `id` with the text of a code and a message. */
  ghost predicate Fails(t: string, id: string, code: string, message: string) {
    exists outer, xs :: ShowsError(t, id, code, message, outer, xs)
  }

  ghost predicate ShowsError(t: string, id: string, code: string, message: string, outer: Members, xs: Members) {
    && IsText(t, Obj(outer)) && TextAt(outer, "id") == Some(id) && FlagAt(outer, "ok") == Some(false)
    && Lookup(outer, "error") == Some(Obj(xs))
    && TextAt(xs, "code") == Some(code) && TextAt(xs, "message") == Some(message)
  }

  /** The id an answer carries: the request's, or "unknown" for one that has none. */
  function AnsweredId(id: string): (r: string) {
    if id == [] then "unknown" else id
  }

  // ----- from replies to responses -----

  lemma GrantedAnswer(d: Daemon, frame: string, stats: Stats, id: string, cmd: string, text: string, xs: Members)
    requires ParseRequest(frame) == Request(id, cmd) && Dispatch(d, CommandOf(cmd), stats).1 == Granted(text)
    requires |text| < PAYLOAD_BUFFER && IsText(text, Obj(xs))
    ensures Respond(d, frame, stats) == (Dispatch(d, CommandOf(cmd), stats).0, Some(SuccessText(id, text)))
    ensures Succeeds(SuccessText(id, text), id, xs)
  {
    FrameIdIsShort(frame);
    SuccessFits(id, text);
    var outer := SuccessReadBack(id, text, xs);
    assert ShowsSuccess(SuccessText(id, text), id, xs, outer);
  }

  lemma Errs(id: string, code: ErrorCode, message: string, codeText: string)
    requires |id| <= MAX_ID_LEN && 0 < |message| < MESSAGE_LEN && CodeName(code) == codeText
    ensures MakeError(id, code, message, RESPONSE_BUFFER) == Some(ErrorText(AnsweredId(id), code, message))
    ensures Fails(ErrorText(AnsweredId(id), code, message), AnsweredId(id), codeText, message)
  {
    ErrorFits(id, code, message);
    var outer, xs := ErrorReadBack(AnsweredId(id), code, message);
    assert ShowsError(ErrorText(AnsweredId(id), code, message), AnsweredId(id), codeText, message, outer, xs);
  }

  lemma DeniedAnswer(d: Daemon, frame: string, stats: Stats, id: string, cmd: string, code: ErrorCode, message: string,
                     codeText: string)
    requires ParseRequest(frame) == Request(id, cmd) && Dispatch(d, CommandOf(cmd), stats) == (d, Denied(code, message))
    requires 0 < |message| < MESSAGE_LEN && CodeName(code) == codeText
    ensures Respond(d, frame, stats) == (d, Some(ErrorText(AnsweredId(id), code, message)))
    ensures Fails(ErrorText(AnsweredId(id), code, message), AnsweredId(id), codeText, message)
  {
    FrameIdIsShort(frame);
    Errs(id, code, message, codeText);
  }

  // ----- the commands by name -----

  lemma CommandNames()
    ensures CommandOf("ping") == Ping && CommandOf("get_version") == GetVersion && CommandOf("get_health") == GetHealth
    ensures CommandOf("get_ports") == GetPorts && CommandOf("get_stats") == GetStats
    ensures CommandOf("reset_stats") == ResetStats && CommandOf("pause_datapath") == PauseDatapath
    ensures CommandOf("resume_datapath") == ResumeDatapath
  {
    assert |"ping"| == 4 && |"get_version"| == 11 && |"get_health"| == 10 && |"get_ports"| == 9 && |"get_stats"| == 9;
    assert |"reset_stats"| == 11 && |"pause_datapath"| == 14 && |"resume_datapath"| == 15;
    assert "get_ports"[4] == 'p' && "get_stats"[4] == 's' && "get_version"[0] == 'g' && "reset_stats"[0] == 'r';
  }

  /** Every counter comes back under its name. */
  lemma StatsAnswered(d: Daemon, frame: string, stats: Stats, id: string) returns (t: string, p: Members, xs: Members)
    requires Serving(d) && WfStats(stats) && ParseRequest(frame) == Request(id, "get_stats")
    ensures Respond(d, frame, stats) == (d, Some(t)) && Succeeds(t, id, p) && Lookup(p, "stats") == Some(Obj(xs))
    ensures NumberAt(xs, "rx_packets") == Some(stats.rxPackets) && NumberAt(xs, "tx_packets") == Some(stats.txPackets)
    ensures NumberAt(xs, "drop_packets") == Some(stats.dropPackets)
    ensures NumberAt(xs, "drop_parse_errors") == Some(stats.dropParseErrors)
    ensures NumberAt(xs, "drop_no_match") == Some(stats.dropNoMatch)
    ensures NumberAt(xs, "rx_bursts") == Some(stats.rxBursts) && NumberAt(xs, "tx_bursts") == Some(stats.txBursts)
    ensures NumberAt(xs, "unsent_packets") == Some(stats.unsentPackets)
  {
    CommandNames();
    StatsReply(stats);
    p, xs := StatsReadBack(stats);
    GrantedAnswer(d, frame, stats, id, "get_stats", StatsText(stats), p);
    t := SuccessText(id, StatsText(stats));
  }

  /** The state is told by the datapath's flags. */
  lemma HealthAnswered(d: Daemon, frame: string, stats: Stats, id: string) returns (t: string, p: Members, xs: Members)
    requires Serving(d) && ParseRequest(frame) == Request(id, "get_health")
    ensures Respond(d, frame, stats) == (d, Some(t)) && Succeeds(t, id, p) && Lookup(p, "health") == Some(Obj(xs))
    ensures var dp := d.datapath;
            && TextAt(xs, "state") == Some(if dp.paused then "paused"
                                           else if dp.portsReady then "running" else "degraded")
            && FlagAt(xs, "ports_ready") == Some(dp.portsReady) && FlagAt(xs, "paused") == Some(dp.paused)
            && NumberAt(xs, "applied_rule_version") == Some(d.health.ruleVersion)
            && (dp.paused ==> TextAt(xs, "message") == Some("datapath forwarding loop paused"))
            && (!dp.paused && 0 < |dp.runningMessage| < MESSAGE_LEN ==>
                  TextAt(xs, "message") == Some(dp.runningMessage))
  {
    CommandNames();
    HealthReply(d.health);
    p, xs := HealthReadBack(d.health);
    GrantedAnswer(d, frame, stats, id, "get_health", HealthText(d.health), p);
    t := SuccessText(id, HealthText(d.health));
  }

  /** Both ports come back, the ingress port first. */
  lemma PortsAnswered(d: Daemon, frame: string, stats: Stats, id: string) returns (t: string, p: Members, xs: Items)
    requires Serving(d) && ParseRequest(frame) == Request(id, "get_ports")
    ensures Respond(d, frame, stats) == (d, Some(t)) && Succeeds(t, id, p) && Lookup(p, "ports") == Some(Arr(xs))
    ensures ShowsPortAt(xs, 0, d.datapath.ingress) && ShowsPortAt(xs, 1, d.datapath.egress) && ItemAt(xs, 2) == None
  {
    CommandNames();
    PortsReply(d.datapath);
    var ports := PortList(d.datapath);
    p, xs := PortsReadBack(ports);
    assert ShowsPortAt(xs, 0, ports[0]) && ShowsPortAt(xs, 1, ports[1]);
    GrantedAnswer(d, frame, stats, id, "get_ports", PortsText(ports), p);
    t := SuccessText(id, PortsText(ports));
  }

  lemma VersionAnswered(d: Daemon, frame: string, stats: Stats, id: string) returns (t: string, p: Members)
    requires Serving(d) && ParseRequest(frame) == Request(id, "get_version")
    ensures Respond(d, frame, stats) == (d, Some(t)) && Succeeds(t, id, p)
    ensures TextAt(p, "service") == Some("pktlab-dpdkd") && TextAt(p, "version") == Some("0.1.0")
    ensures TextAt(p, "dpdk_version") == Some("25.11.0")
  {
    CommandNames();
    VersionReply();
    p := VersionReadBack();
    GrantedAnswer(d, frame, stats, id, "get_version", VersionText(), p);
    t := SuccessText(id, VersionText());
  }

  lemma Acknowledged(d: Daemon, frame: string, stats: Stats, id: string, cmd: string, message: string)
    returns (t: string, p: Members)
    requires ParseRequest(frame) == Request(id, cmd) && |message| < MESSAGE_LEN
    requires Dispatch(d, CommandOf(cmd), stats).1 == Granted(AckText(message))
    ensures Respond(d, frame, stats) == (Dispatch(d, CommandOf(cmd), stats).0, Some(t)) && Succeeds(t, id, p)
    ensures TextAt(p, "message") == Some(message)
  {
    AckReply(message);
    p := AckReadBack(message);
    GrantedAnswer(d, frame, stats, id, cmd, AckText(message), p);
    t := SuccessText(id, AckText(message));
  }

  lemma PingAnswered(d: Daemon, frame: string, stats: Stats, id: string) returns (t: string, p: Members)
    requires ParseRequest(frame) == Request(id, "ping")
    ensures Respond(d, frame, stats) == (d, Some(t)) && Succeeds(t, id, p) && TextAt(p, "message") == Some("pong")
  {
    CommandNames();
    AckReply("pong");
    t, p := Acknowledged(d, frame, stats, id, "ping", "pong");
  }

  /** A reset is acknowledged, and leaves all counters at zero. */
  lemma ResetAnswered(d: Daemon, frame: string, stats: Stats, id: string) returns (t: string, p: Members)
    requires ParseRequest(frame) == Request(id, "reset_stats")
    ensures Respond(d, frame, stats) == (d, Some(t)) && Succeeds(t, id, p)
    ensures TextAt(p, "message") == Some("datapath counters reset")
    ensures CountersAfter(CommandOf("reset_stats"), stats) == Stats(0, 0, 0, 0, 0, 0, 0, 0)
  {
    CommandNames();
    AckReply(RESET_ACK);
    t, p := Acknowledged(d, frame, stats, id, "reset_stats", RESET_ACK);
  }

  lemma PauseDispatched(d: Daemon, cmd: string, stats: Stats)
    requires Serving(d) && Active(d.datapath) && CommandOf(cmd) == PauseDatapath
    ensures var (d', reply) := Dispatch(d, CommandOf(cmd), stats);
            && d'.datapath == d.datapath.(paused := true) && d'.health.state == Paused && d'.health.paused
            && reply == Granted(AckText(if d.datapath.paused then "datapath forwarding loop is already paused"
                                        else "datapath forwarding loop paused"))
  {
    AckReply(PauseAck(!d.datapath.paused));
  }

  /** Pause sets the flag of an active datapath and says whether that changed anything. */
  lemma PauseAnswered(d: Daemon, frame: string, stats: Stats, id: string) returns (t: string, p: Members)
    requires Serving(d) && Active(d.datapath) && ParseRequest(frame) == Request(id, "pause_datapath")
    ensures var (d', r) := Respond(d, frame, stats);
            r == Some(t) && d'.datapath == d.datapath.(paused := true) && d'.health.state == Paused && d'.health.paused
    ensures Succeeds(t, id, p)
    ensures TextAt(p, "message") == Some(if d.datapath.paused then "datapath forwarding loop is already paused"
                                         else "datapath forwarding loop paused")
  {
    var cmd := "pause_datapath";
    assert CommandOf(cmd) == PauseDatapath by {
      CommandNames();
    }
    PauseDispatched(d, cmd, stats);
    t, p := Acknowledged(d, frame, stats, id, cmd, PauseAck(!d.datapath.paused));
  }

  lemma ResumeDispatched(d: Daemon, cmd: string, stats: Stats)
    requires Serving(d) && Active(d.datapath) && CommandOf(cmd) == ResumeDatapath
    ensures var (d', reply) := Dispatch(d, CommandOf(cmd), stats);
            && d'.datapath == d.datapath.(paused := false) && d'.health.state == Running && !d'.health.paused
            && reply == Granted(AckText(if d.datapath.paused then "datapath forwarding loop resumed"
                                        else "datapath forwarding loop is already running"))
  {
    AckReply(ResumeAck(d.datapath.paused));
  }

  /** Resume clears it again. */
  lemma ResumeAnswered(d: Daemon, frame: string, stats: Stats, id: string) returns (t: string, p: Members)
    requires Serving(d) && Active(d.datapath) && ParseRequest(frame) == Request(id, "resume_datapath")
    ensures var (d', r) := Respond(d, frame, stats);
            && r == Some(t) && d'.datapath == d.datapath.(paused := false)
            && d'.health.state == Running && !d'.health.paused
    ensures Succeeds(t, id, p)
    ensures TextAt(p, "message") == Some(if d.datapath.paused then "datapath forwarding loop resumed"
                                         else "datapath forwarding loop is already running")
  {
    var cmd := "resume_datapath";
    assert CommandOf(cmd) == ResumeDatapath by {
      CommandNames();
    }
    ResumeDispatched(d, cmd, stats);
    t, p := Acknowledged(d, frame, stats, id, cmd, ResumeAck(d.datapath.paused));
  }

  // ----- refusals -----

  /** Pausing or resuming a datapath that does not forward is a conflict, and changes nothing. */
  lemma InactiveAnswered(d: Daemon, frame: string, stats: Stats, id: string, cmd: string) returns (t: string)
    requires !Active(d.datapath) && ParseRequest(frame) == Request(id, cmd)
    requires cmd == "pause_datapath" || cmd == "resume_datapath"
    ensures Respond(d, frame, stats) == (d, Some(t))
    ensures Fails(t, AnsweredId(id), "STATE_CONFLICT", "datapath forwarding loop is not active")
  {
    CommandNames();
    DeniedAnswer(d, frame, stats, id, cmd, StateConflict, INACTIVE.message, "STATE_CONFLICT");
    t := ErrorText(AnsweredId(id), StateConflict, INACTIVE.message);
  }

  predicate IsCommand(cmd: string) {
    || cmd == "ping" || cmd == "get_version" || cmd == "get_health" || cmd == "get_ports" || cmd == "get_stats"
    || cmd == "reset_stats" || cmd == "pause_datapath" || cmd == "resume_datapath"
  }

  lemma OthersAreUnknown(cmd: string)
    requires !IsCommand(cmd)
    ensures CommandOf(cmd) == Unknown
  {
  }

  lemma UnknownIsDenied(d: Daemon, cmd: string, stats: Stats)
    requires CommandOf(cmd) == Unknown
    ensures Dispatch(d, CommandOf(cmd), stats) == (d, Denied(UnknownCommand, UNKNOWN.message))
  {
  }

  /** Any other command is unknown. */
  lemma UnknownAnswered(d: Daemon, frame: string, stats: Stats, id: string, cmd: string) returns (t: string)
    requires ParseRequest(frame) == Request(id, cmd)
    requires !IsCommand(cmd)
    ensures Respond(d, frame, stats) == (d, Some(t))
    ensures Fails(t, AnsweredId(id), "UNKNOWN_COMMAND", "unknown IPC command")
  {
    OthersAreUnknown(cmd);
    UnknownIsDenied(d, cmd, stats);
    DeniedAnswer(d, frame, stats, id, cmd, UnknownCommand, UNKNOWN.message, "UNKNOWN_COMMAND");
    t := ErrorText(AnsweredId(id), UnknownCommand, UNKNOWN.message);
  }

  /** A request that does not parse gets the message of what is wrong, and the code of a bad payload or request. */
  lemma UnparsedAnswered(d: Daemon, frame: string, stats: Stats, e: RequestError, id: string) returns (t: string)
    requires ParseRequest(frame) == Refused(e, id)
    ensures Respond(d, frame, stats) == (d, Some(t))
    ensures var code := if e.PayloadNotObject? then "INVALID_PAYLOAD" else "INVALID_REQUEST";
            Fails(t, AnsweredId(id), code, RequestMessage(e))
  {
    FrameIdIsShort(frame);
    Errs(id, RequestCode(e), RequestMessage(e), if e.PayloadNotObject? then "INVALID_PAYLOAD" else "INVALID_REQUEST");
    t := ErrorText(AnsweredId(id), RequestCode(e), RequestMessage(e));
  }
}
