/**
 What a client finds in a rendered response: the members of the object by name, with their values read back as
 numbers, strings and flags.
 */
module ResponseFields {
  import opened JsonGrammar
  import opened JsonEscape
  import opened Responses
  import opened Lcores

  /** The value of the first member with this name. */
  function Lookup(xs: Members, key: string): (v: Option<Value>) {
    match xs
    case MembersEnd(_) => None
    case MembersLast(_, m, _) => if WfBody(m.key) && Decode(m.key) == key then Some(m.value) else None
    case MembersMore(_, m, _, more) =>
      if WfBody(m.key) && Decode(m.key) == key then Some(m.value) else Lookup(more, key)
  }

  function NumberAt(xs: Members, key: string): (n: Option<nat>) {
    match Lookup(xs, key)
    case Some(Num(Number(false, whole, None, None))) => if AllDigits(whole) then Some(ValueOf(whole)) else None
    case _ => None
  }

  function TextAt(xs: Members, key: string): (t: Option<string>) {
    match Lookup(xs, key)
    case Some(Str(b)) => if WfBody(b) then Some(Decode(b)) else None
    case _ => None
  }

  function FlagAt(xs: Members, key: string): (b: Option<bool>) {
    match Lookup(xs, key)
    case Some(Lit(True)) => Some(true)
    case Some(Lit(False)) => Some(false)
    case _ => None
  }

  ghost predicate NewKey(fields: seq<(string, string)>, i: nat)
    requires i < |fields|
  {
    forall j :: 0 <= j < i ==> fields[j].0 != fields[i].0
  }

  lemma {:induction false} TreeLookup(fields: seq<(string, string)>, values: seq<Value>, i: nat)
    requires |fields| == |values| && i < |fields| && NewKey(fields, i)
    ensures Lookup(Tree(fields, values), fields[i].0) == Some(values[i])
  {
    EscapeMeans(fields[0].0);
    if i > 0 {
      assert fields[0].0 != fields[i].0;
      assert NewKey(fields[1..], i - 1);
      TreeLookup(fields[1..], values[1..], i - 1);
    }
  }

  lemma NumberShown(fields: seq<(string, string)>, values: seq<Value>, i: nat, n: nat)
    requires |fields| == |values| && i < |fields| && NewKey(fields, i) && values[i] == NumberOf(n)
    ensures NumberAt(Tree(fields, values), fields[i].0) == Some(n)
  {
    TreeLookup(fields, values, i);
    ValueOfDec(n);
  }

  lemma TextShown(fields: seq<(string, string)>, values: seq<Value>, i: nat, t: string)
    requires |fields| == |values| && i < |fields| && NewKey(fields, i) && values[i] == Str(EscapeBody(t))
    ensures TextAt(Tree(fields, values), fields[i].0) == Some(t)
  {
    TreeLookup(fields, values, i);
    EscapeMeans(t);
  }

  lemma FlagShown(fields: seq<(string, string)>, values: seq<Value>, i: nat, b: bool)
    requires |fields| == |values| && i < |fields| && NewKey(fields, i) && values[i] == LiteralOf(b)
    ensures FlagAt(Tree(fields, values), fields[i].0) == Some(b)
  {
    TreeLookup(fields, values, i);
  }

  lemma PlainIsText(t: string)
    requires Plain(t)
    ensures IsText("\"" + t + "\"", Str(EscapeBody(t)))
  {
    PlainEscape(t);
    StringIsText(t);
  }

  /** An object in an object, under one name. */
  lemma Wrapped(key: string, inner: string, xs: Members) returns (outer: Members)
    requires Plain(key) && IsText(inner, Obj(xs))
    ensures IsText(ObjectText([(key, inner)]), Obj(outer)) && Lookup(outer, key) == Some(Obj(xs))
  {
    var fields, values := [(key, inner)], [Obj(xs)];
    ObjectIsText(fields, values);
    TreeLookup(fields, values, 0);
    outer := Tree(fields, values);
  }

  // ----- counters -----

  function StatsFields(s: Stats): (fields: seq<(string, string)>) {
    PacketFields(s) + BurstFields(s)
  }

  function StatsValues(s: Stats): (values: seq<Value>) {
    [NumberOf(s.rxPackets), NumberOf(s.txPackets), NumberOf(s.dropPackets), NumberOf(s.dropParseErrors),
     NumberOf(s.dropNoMatch),
     NumberOf(s.rxBursts), NumberOf(s.txBursts), NumberOf(s.unsentPackets), Obj(MembersEnd([]))]
  }

  lemma StatsAreTexts(s: Stats)
    ensures AreTexts(StatsFields(s), StatsValues(s))
  {
    PlainStats();
    var values, fields := StatsValues(s), StatsFields(s);
    DecIsText(s.rxPackets); DecIsText(s.txPackets); DecIsText(s.dropPackets); DecIsText(s.dropParseErrors);
    DecIsText(s.dropNoMatch); DecIsText(s.rxBursts); DecIsText(s.txBursts); DecIsText(s.unsentPackets);
    assert IsText("{}", Obj(MembersEnd([])));
  }

  lemma StatsKeysDiffer(s: Stats)
    ensures forall i :: 0 <= i < 8 ==> NewKey(StatsFields(s), i)
  {
    var f := StatsFields(s);
    assert |f[0].0| == 10 && |f[1].0| == 10 && f[0].0[0] == 'r' && f[1].0[0] == 't';
    assert |f[2].0| == 12 && |f[3].0| == 17 && |f[4].0| == 13 && |f[7].0| == 14;
    assert |f[5].0| == 9 && |f[6].0| == 9 && f[5].0[0] == 'r' && f[6].0[0] == 't';
  }

  /** Each counter is found under its own name. */
  lemma StatsReadBack(s: Stats) returns (outer: Members, xs: Members)
    ensures IsText(StatsText(s), Obj(outer)) && Lookup(outer, "stats") == Some(Obj(xs))
    ensures NumberAt(xs, "rx_packets") == Some(s.rxPackets) && NumberAt(xs, "tx_packets") == Some(s.txPackets)
    ensures NumberAt(xs, "drop_packets") == Some(s.dropPackets)
    ensures NumberAt(xs, "drop_parse_errors") == Some(s.dropParseErrors)
    ensures NumberAt(xs, "drop_no_match") == Some(s.dropNoMatch)
    ensures NumberAt(xs, "rx_bursts") == Some(s.rxBursts) && NumberAt(xs, "tx_bursts") == Some(s.txBursts)
    ensures NumberAt(xs, "unsent_packets") == Some(s.unsentPackets)
  {
    var fields, values := StatsFields(s), StatsValues(s);
    StatsAreTexts(s);
    StatsKeysDiffer(s);
    xs := Tree(fields, values);
    ObjectIsText(fields, values);
    PlainStats();
    outer := Wrapped("stats", ObjectText(fields), xs);
    NumberShown(fields, values, 0, s.rxPackets);
    NumberShown(fields, values, 1, s.txPackets);
    NumberShown(fields, values, 2, s.dropPackets);
    NumberShown(fields, values, 3, s.dropParseErrors);
    NumberShown(fields, values, 4, s.dropNoMatch);
    NumberShown(fields, values, 5, s.rxBursts);
    NumberShown(fields, values, 6, s.txBursts);
    NumberShown(fields, values, 7, s.unsentPackets);
  }

  // ----- health -----

  function HealthValues(h: Health): (values: seq<Value>) {
    [Str(EscapeBody(StateName(h.state))), Str(EscapeBody(h.message)), NumberOf(h.ruleVersion), LiteralOf(h.portsReady),
     LiteralOf(h.paused)]
  }

  lemma HealthAreTexts(h: Health)
    ensures AreTexts(HealthFields(h), HealthValues(h))
    ensures forall i :: 0 <= i < 5 ==> NewKey(HealthFields(h), i)
  {
    PlainHealth();
    PlainState(h.state);
    PlainIsText(StateName(h.state));
    StringIsText(h.message);
    DecIsText(h.ruleVersion);
    BoolIsText(h.portsReady);
    BoolIsText(h.paused);
    var f := HealthFields(h);
    assert |f[0].0| == 5 && |f[1].0| == 7 && |f[2].0| == 20 && |f[3].0| == 11 && |f[4].0| == 6;
  }

  /** State name, message, rule version and both flags are found under their names. */
  lemma HealthReadBack(h: Health) returns (outer: Members, xs: Members)
    ensures IsText(HealthText(h), Obj(outer)) && Lookup(outer, "health") == Some(Obj(xs))
    ensures TextAt(xs, "state") == Some(match h.state
                                        case Starting => "starting"
                                        case Running => "running"
                                        case Paused => "paused"
                                        case Degraded => "degraded"
                                        case Stopping => "stopping"
                                        case Failed => "failed")
    ensures TextAt(xs, "message") == Some(h.message)
    ensures NumberAt(xs, "applied_rule_version") == Some(h.ruleVersion)
    ensures FlagAt(xs, "ports_ready") == Some(h.portsReady) && FlagAt(xs, "paused") == Some(h.paused)
  {
    var fields, values := HealthFields(h), HealthValues(h);
    HealthAreTexts(h);
    xs := Tree(fields, values);
    ObjectIsText(fields, values);
    PlainHealth();
    outer := Wrapped("health", ObjectText(fields), xs);
    TextShown(fields, values, 0, StateName(h.state));
    TextShown(fields, values, 1, h.message);
    NumberShown(fields, values, 2, h.ruleVersion);
    FlagShown(fields, values, 3, h.portsReady);
    FlagShown(fields, values, 4, h.paused);
  }

  // ----- ports -----

  function PortValues(p: Port): (values: seq<Value>) {
    [Str(EscapeBody(p.name)), NumberOf(p.portId), Str(EscapeBody(RoleName(p))), Str(EscapeBody(PortStateName(p)))]
  }

  lemma PortAreTexts(p: Port)
    ensures AreTexts(PortFields(p), PortValues(p))
    ensures forall i :: 0 <= i < 4 ==> NewKey(PortFields(p), i)
  {
    PlainPort(p);
    StringIsText(p.name);
    DecIsText(p.portId);
    PlainIsText(RoleName(p));
    PlainIsText(PortStateName(p));
    var f := PortFields(p);
    assert |f[0].0| == 4 && |f[1].0| == 7 && |f[2].0| == 4 && |f[3].0| == 5 && f[0].0[0] == 'n' && f[2].0[0] == 'r';
  }

  lemma PortReadBack(p: Port) returns (xs: Members)
    ensures IsText(PortText(p), Obj(xs))
    ensures TextAt(xs, "name") == Some(p.name) && NumberAt(xs, "port_id") == Some(p.portId)
    ensures TextAt(xs, "role") == Some(if p.ingress then "ingress" else "egress")
    ensures TextAt(xs, "state") == Some(if p.up then "up" else "down")
  {
    var fields, values := PortFields(p), PortValues(p);
    PortAreTexts(p);
    xs := Tree(fields, values);
    ObjectIsText(fields, values);
    TextShown(fields, values, 0, p.name);
    NumberShown(fields, values, 1, p.portId);
    TextShown(fields, values, 2, RoleName(p));
    TextShown(fields, values, 3, PortStateName(p));
  }

  /** The value at a position of a list. */
  function ItemAt(xs: Items, i: nat): (v: Option<Value>) {
    match xs
    case ItemsEnd(_) => None
    case ItemsLast(_, item, _) => if i == 0 then Some(item) else None
    case ItemsMore(_, item, _, rest) => if i == 0 then Some(item) else ItemAt(rest, i - 1)
  }

  ghost predicate ShowsPort(xs: Members, p: Port) {
    && TextAt(xs, "name") == Some(p.name) && NumberAt(xs, "port_id") == Some(p.portId)
    && TextAt(xs, "role") == Some(if p.ingress then "ingress" else "egress")
    && TextAt(xs, "state") == Some(if p.up then "up" else "down")
  }

  /** The list shows port `i` at position `i`, and no more. */
  ghost predicate ShowsPorts(xs: Items, ports: seq<Port>) {
    && (forall i :: 0 <= i < |ports| ==> ShowsPortAt(xs, i, ports[i]))
    && ItemAt(xs, |ports|) == None
  }

  ghost predicate ShowsPortAt(xs: Items, i: nat, p: Port) {
    exists m :: ItemAt(xs, i) == Some(Obj(m)) && ShowsPort(m, p)
  }

  lemma {:induction false} PortItems(ports: seq<Port>) returns (xs: Items)
    ensures WfItems(xs) && ItemsOnto(xs, []) == Commas(PortTexts(ports)) + "]" && ShowsPorts(xs, ports)
  {
    if ports == [] {
      xs := ItemsEnd([]);
      return;
    }
    var items := PortTexts(ports);
    var m := PortReadBack(ports[0]);
    assert ShowsPort(m, ports[0]);
    if |ports| == 1 {
      xs := ItemsLast([], Obj(m), []);
      LastItem(items[0], Obj(m));
      assert Commas(items) == items[0];
      assert ShowsPortAt(xs, 0, ports[0]);
    } else {
      var rest := PortItems(ports[1..]);
      assert items[1..] == PortTexts(ports[1..]);
      xs := ItemsMore([], Obj(m), [], rest);
      MoreItems(items[0], Obj(m), rest, Commas(items[1..]));
      MorePortsShown(xs, m, rest, ports);
    }
  }

  lemma MorePortsShown(xs: Items, m: Members, rest: Items, ports: seq<Port>)
    requires xs == ItemsMore([], Obj(m), [], rest) && ports != []
    requires ShowsPort(m, ports[0]) && ShowsPorts(rest, ports[1..])
    ensures ShowsPorts(xs, ports)
  {
    forall i | 0 <= i < |ports|
      ensures ShowsPortAt(xs, i, ports[i])
    {
      if i == 0 {
        assert ItemAt(xs, 0) == Some(Obj(m));
      } else {
        assert ShowsPortAt(rest, i - 1, ports[1..][i - 1]);
        var k :| ItemAt(rest, i - 1) == Some(Obj(k)) && ShowsPort(k, ports[i]);
        assert ItemAt(xs, i) == Some(Obj(k));
      }
    }
  }

  /** Every port is found in the list, in order, with its name, id, role and state. */
  lemma PortsReadBack(ports: seq<Port>) returns (outer: Members, xs: Items)
    ensures IsText(PortsText(ports), Obj(outer)) && Lookup(outer, "ports") == Some(Arr(xs)) && ShowsPorts(xs, ports)
  {
    xs := PortItems(ports);
    var text := "[" + Commas(PortTexts(ports)) + "]";
    assert text == ['['] + (Commas(PortTexts(ports)) + "]");
    assert IsText(text, Arr(xs));
    var fields, values := [("ports", text)], [Arr(xs)];
    ObjectIsText(fields, values);
    TreeLookup(fields, values, 0);
    outer := Tree(fields, values);
  }

  // ----- acknowledgements and version -----

  lemma AckReadBack(message: string) returns (xs: Members)
    ensures IsText(AckText(message), Obj(xs)) && TextAt(xs, "message") == Some(message)
  {
    var fields, values := [("message", Quote(message))], [Str(EscapeBody(message))];
    StringIsText(message);
    PlainHealth();
    ObjectIsText(fields, values);
    TextShown(fields, values, 0, message);
    xs := Tree(fields, values);
  }

  lemma VersionReadBack() returns (xs: Members)
    ensures IsText(VersionText(), Obj(xs))
    ensures TextAt(xs, "service") == Some("pktlab-dpdkd") && TextAt(xs, "version") == Some("0.1.0")
    ensures TextAt(xs, "dpdk_version") == Some("25.11.0")
  {
    var fields := [("service", "\"" + SERVICE_NAME + "\""), ("version", "\"" + VERSION + "\""),
                   ("dpdk_version", "\"" + DPDK_VERSION + "\"")];
    var values := [Str(EscapeBody(SERVICE_NAME)), Str(EscapeBody(VERSION)), Str(EscapeBody(DPDK_VERSION))];
    PlainVersion();
    PlainIsText(SERVICE_NAME);
    PlainIsText(VERSION);
    PlainIsText(DPDK_VERSION);
    assert |fields[0].0| == 7 && |fields[1].0| == 7 && |fields[2].0| == 12;
    assert fields[0].0[0] == 's' && fields[1].0[0] == 'v';
    ObjectIsText(fields, values);
    TextShown(fields, values, 0, SERVICE_NAME);
    TextShown(fields, values, 1, VERSION);
    TextShown(fields, values, 2, DPDK_VERSION);
    xs := Tree(fields, values);
  }

  // ----- errors -----

  lemma ErrorBody(code: ErrorCode, message: string) returns (xs: Members)
    ensures IsText(ObjectText([("code", "\"" + CodeName(code) + "\""), ("message", Quote(message))]), Obj(xs))
    ensures TextAt(xs, "code") == Some(CodeName(code)) && TextAt(xs, "message") == Some(message)
  {
    var fields := [("code", "\"" + CodeName(code) + "\""), ("message", Quote(message))];
    var values := [Str(EscapeBody(CodeName(code))), Str(EscapeBody(message))];
    PlainCode(code);
    PlainIsText(CodeName(code));
    StringIsText(message);
    assert |fields[0].0| == 4 && |fields[1].0| == 7;
    ObjectIsText(fields, values);
    TextShown(fields, values, 0, CodeName(code));
    TextShown(fields, values, 1, message);
    xs := Tree(fields, values);
  }

  /** An error response carries its id, the code's name and the message. */
  lemma ErrorReadBack(id: string, code: ErrorCode, message: string) returns (outer: Members, xs: Members)
    ensures IsText(ErrorText(id, code, message), Obj(outer))
    ensures TextAt(outer, "id") == Some(id) && FlagAt(outer, "ok") == Some(false)
    ensures Lookup(outer, "error") == Some(Obj(xs))
    ensures TextAt(xs, "code") == Some(match code
                                       case InvalidRequest => "INVALID_REQUEST"
                                       case InvalidPayload => "INVALID_PAYLOAD"
                                       case UnknownCommand => "UNKNOWN_COMMAND"
                                       case StateConflict => "STATE_CONFLICT"
                                       case PortInit => "PORT_INIT_ERROR"
                                       case Internal => "INTERNAL_ERROR")
    ensures TextAt(xs, "message") == Some(message)
  {
    xs := ErrorBody(code, message);
    var inner := ObjectText([("code", "\"" + CodeName(code) + "\""), ("message", Quote(message))]);
    var fields := [("id", Quote(id)), ("ok", "false"), ("error", inner)];
    var values := [Str(EscapeBody(id)), LiteralOf(false), Obj(xs)];
    StringIsText(id);
    BoolIsText(false);
    assert |fields[0].0| == 2 && |fields[1].0| == 2 && |fields[2].0| == 5;
    assert fields[0].0[0] == 'i' && fields[1].0[0] == 'o';
    ObjectIsText(fields, values);
    TextShown(fields, values, 0, id);
    FlagShown(fields, values, 1, false);
    TreeLookup(fields, values, 2);
    outer := Tree(fields, values);
  }

  /** A success response carries its id and the payload object under its name. */
  lemma SuccessReadBack(id: string, payload: string, xs: Members) returns (outer: Members)
    requires IsText(payload, Obj(xs))
    ensures IsText(SuccessText(id, payload), Obj(outer))
    ensures TextAt(outer, "id") == Some(id) && FlagAt(outer, "ok") == Some(true)
    ensures Lookup(outer, "payload") == Some(Obj(xs))
  {
    var fields := [("id", Quote(id)), ("ok", "true"), ("payload", payload)];
    var values := [Str(EscapeBody(id)), LiteralOf(true), Obj(xs)];
    StringIsText(id);
    BoolIsText(true);
    assert |fields[0].0| == 2 && |fields[1].0| == 2 && |fields[2].0| == 7;
    assert fields[0].0[0] == 'i' && fields[1].0[0] == 'o';
    ObjectIsText(fields, values);
    TextShown(fields, values, 0, id);
    FlagShown(fields, values, 1, true);
    TreeLookup(fields, values, 2);
    outer := Tree(fields, values);
  }
}
