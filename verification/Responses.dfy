/**
 The response renderers of dpdkd/src/json_proto.c. Every rendered text is shown to be one complete value of
 the scanner's own grammar, and to fit the fixed buffers it is rendered into.
 */
module Responses {
  import opened JsonGrammar
  import opened JsonScanner
  import opened RequestParser
  import opened JsonEscape

  const PAYLOAD_BUFFER: nat := 1024
  const RESPONSE_BUFFER: nat := 16384
  const MESSAGE_LEN: nat := 128
  const NAME_LEN: nat := 32
  const MAX_ID_LEN: nat := 64
  const ERROR_MESSAGE_BUFFER: nat := 256
  const SERVICE_NAME := "pktlab-dpdkd"
  const VERSION := "0.1.0"
  const DPDK_VERSION := "25.11.0"

  datatype Stats = Stats(rxPackets: nat, txPackets: nat, dropPackets: nat, dropParseErrors: nat,
                         dropNoMatch: nat, rxBursts: nat, txBursts: nat, unsentPackets: nat)

  datatype DpState = Starting | Running | Paused | Degraded | Stopping | Failed

  datatype Health = Health(state: DpState, message: string, ruleVersion: nat, portsReady: bool, paused: bool)

  datatype Port = Port(name: string, portId: nat, ingress: bool, up: bool)

  datatype ErrorCode = InvalidRequest | InvalidPayload | UnknownCommand | StateConflict | PortInit | Internal

  function StateName(s: DpState): (t: string) {
    match s
    case Starting => "starting"
    case Running => "running"
    case Paused => "paused"
    case Degraded => "degraded"
    case Stopping => "stopping"
    case Failed => "failed"
  }

  function CodeName(c: ErrorCode): (t: string) {
    match c
    case InvalidRequest => "INVALID_REQUEST"
    case InvalidPayload => "INVALID_PAYLOAD"
    case UnknownCommand => "UNKNOWN_COMMAND"
    case StateConflict => "STATE_CONFLICT"
    case PortInit => "PORT_INIT_ERROR"
    case Internal => "INTERNAL_ERROR"
  }

  // ----- pieces of text -----

  function DigitChar(d: nat): (c: char)
    requires d < 10
    ensures IsDigit(c)
  {
    "0123456789"[d]
  }

  /** Decimal digits, as %u and PRIu64 print them. */
  function Dec(n: nat): (s: string)
    ensures s != [] && Digits(s)
  {
    if n < 10 then [DigitChar(n)] else Dec(n / 10) + [DigitChar(n % 10)]
  }

  function Pow10(k: nat): (p: nat)
    ensures p > 0
  {
    if k == 0 then 1 else 10 * Pow10(k - 1)
  }

  lemma {:induction false} DecLength(n: nat, k: nat)
    requires k > 0 && n < Pow10(k)
    ensures |Dec(n)| <= k
  {
    if n >= 10 {
      assert k > 1;
      DecLength(n / 10, k - 1);
    }
  }

  function BoolText(b: bool): (t: string) {
    if b then "true" else "false"
  }

  /** The named texts of an object's fields, between commas. */
  function FieldTexts(fields: seq<(string, string)>): (t: string) {
    if fields == [] then []
    else
      "\"" + fields[0].0 + "\":" + fields[0].1 + if |fields| == 1 then [] else "," + FieldTexts(fields[1..])
  }

  function ObjectText(fields: seq<(string, string)>): (t: string) {
    "{" + FieldTexts(fields) + "}"
  }

  // ----- the renderers -----

  /** vsnprintf into a buffer: the text, or nothing when the text and its NUL do not fit. */
  function Print(t: string, capacity: nat): (r: Option<string>)
    ensures r.Some? <==> |t| < capacity
    ensures r.Some? ==> r.value == t
  {
    if |t| < capacity then Some(t) else None
  }

  function AckPayload(message: string, capacity: nat): (r: Option<string>) {
    if |Escape(message)| < MESSAGE_LEN * 2 then Print(AckText(message), capacity) else None
  }

  function AckText(message: string): (t: string) {
    ObjectText([("message", Quote(message))])
  }

  function VersionPayload(capacity: nat): (r: Option<string>) {
    Print(VersionText(), capacity)
  }

  function VersionText(): (t: string) {
    ObjectText([("service", "\"" + SERVICE_NAME + "\""), ("version", "\"" + VERSION + "\""),
                ("dpdk_version", "\"" + DPDK_VERSION + "\"")])
  }

  function HealthPayload(h: Health, capacity: nat): (r: Option<string>) {
    if |Escape(h.message)| < MESSAGE_LEN * 2 then Print(HealthText(h), capacity) else None
  }

  function HealthText(h: Health): (t: string) {
    ObjectText([("health", ObjectText(HealthFields(h)))])
  }

  function HealthFields(h: Health): (fields: seq<(string, string)>) {
    [("state", "\"" + StateName(h.state) + "\""), ("message", Quote(h.message)),
     ("applied_rule_version", Dec(h.ruleVersion)), ("ports_ready", BoolText(h.portsReady)),
     ("paused", BoolText(h.paused))]
  }

  function RoleName(p: Port): (t: string) {
    if p.ingress then "ingress" else "egress"
  }

  function PortStateName(p: Port): (t: string) {
    if p.up then "up" else "down"
  }

  function PortText(p: Port): (t: string) {
    ObjectText(PortFields(p))
  }

  function PortFields(p: Port): (fields: seq<(string, string)>) {
    [("name", Quote(p.name)), ("port_id", Dec(p.portId)),
     ("role", "\"" + RoleName(p) + "\""), ("state", "\"" + PortStateName(p) + "\"")]
  }

  /** Item texts between commas. */
  function Commas(items: seq<string>): (t: string) {
    if items == [] then []
    else items[0] + if |items| == 1 then [] else "," + Commas(items[1..])
  }

  function PortTexts(ports: seq<Port>): (items: seq<string>) {
    seq(|ports|, i requires 0 <= i < |ports| => PortText(ports[i]))
  }

  function PortsText(ports: seq<Port>): (t: string) {
    ObjectText([("ports", "[" + Commas(PortTexts(ports)) + "]")])
  }

  predicate NameFits(p: Port) {
    |Escape(p.name)| < NAME_LEN * 2 + 1
  }

  /** The loop checks the space after every item; together the checks ask for the whole text and a NUL. */
  function PortsPayload(ports: seq<Port>, capacity: nat): (r: Option<string>) {
    if forall i :: 0 <= i < |ports| ==> NameFits(ports[i]) then Print(PortsText(ports), capacity) else None
  }

  lemma {:induction false} CommasAppend(items: seq<string>, item: string)
    ensures Commas(items + [item]) == Commas(items) + (if items == [] then [] else ",") + item
  {
    if items == [] {
      assert items + [item] == [item];
    } else {
      assert (items + [item])[1..] == items[1..] + [item];
      CommasAppend(items[1..], item);
    }
  }

  lemma {:induction false} CommasGrow(items: seq<string>, k: nat)
    requires k <= |items|
    ensures |Commas(items[..k])| <= |Commas(items)|
    decreases |items| - k
  {
    if k == |items| {
      assert items[..k] == items;
    } else {
      assert items[..k + 1] == items[..k] + [items[k]];
      CommasAppend(items[..k], items[k]);
      CommasGrow(items, k + 1);
    }
  }

  const PORTS_HEAD := "{\"ports\":["

  lemma Bracketed(head: string, mid: string)
    ensures "{" + (head + ("[" + mid + "]")) + "}" == (("{" + head) + "[") + mid + "]}"
  {
    assert "]" + "}" == "]}";
  }

  lemma PortsTextShape(ports: seq<Port>)
    ensures PortsText(ports) == PORTS_HEAD + Commas(PortTexts(ports)) + "]}"
  {
    var mid, head := Commas(PortTexts(ports)), "\"" + "ports" + "\":";
    var fields := [("ports", "[" + mid + "]")];
    assert FieldTexts(fields) == head + ("[" + mid + "]") + [] == head + ("[" + mid + "]");
    Bracketed(head, mid);
    assert ("{" + head) + "[" == PORTS_HEAD;
  }

  /**
   The rendering loop: one bounded print per item, each checked against the space that is left. `escaped[i]`
   says whether the name of item `i` could be escaped.
   */
  method RenderItems(items: seq<string>, escaped: seq<bool>, capacity: nat) returns (r: Option<string>)
    requires |items| == |escaped|
    ensures r.Some? <==> |PORTS_HEAD + Commas(items) + "]}"| < capacity && forall i :: 0 <= i < |escaped| ==> escaped[i]
    ensures r.Some? ==> r.value == PORTS_HEAD + Commas(items) + "]}"
  {
    var buffer := PORTS_HEAD;
    if |buffer| >= capacity {
      return None;
    }
    for index := 0 to |items|
      invariant buffer == PORTS_HEAD + Commas(items[..index]) && |buffer| < capacity
      invariant forall i :: 0 <= i < index ==> escaped[i]
    {
      if !escaped[index] {
        return None;
      }
      var item := (if index == 0 then [] else ",") + items[index];
      assert items[..index + 1] == items[..index] + [items[index]];
      CommasAppend(items[..index], items[index]);
      CommasGrow(items, index + 1);
      if |item| >= capacity - |buffer| {
        return None;
      }
      buffer := buffer + item;
    }
    assert items[..|items|] == items;
    if |buffer| + 3 > capacity {
      return None;
    }
    return Some(buffer + "]}");
  }

  method RenderPorts(ports: seq<Port>, capacity: nat) returns (r: Option<string>)
    ensures r == PortsPayload(ports, capacity)
  {
    PortsTextShape(ports);
    var escaped := seq(|ports|, i requires 0 <= i < |ports| => NameFits(ports[i]));
    assert forall i :: 0 <= i < |ports| ==> escaped[i] == NameFits(ports[i]);
    r := RenderItems(PortTexts(ports), escaped, capacity);
  }

  function PacketFields(s: Stats): (fields: seq<(string, string)>) {
    [("rx_packets", Dec(s.rxPackets)), ("tx_packets", Dec(s.txPackets)), ("drop_packets", Dec(s.dropPackets)),
     ("drop_parse_errors", Dec(s.dropParseErrors)), ("drop_no_match", Dec(s.dropNoMatch))]
  }

  function BurstFields(s: Stats): (fields: seq<(string, string)>) {
    [("rx_bursts", Dec(s.rxBursts)), ("tx_bursts", Dec(s.txBursts)), ("unsent_packets", Dec(s.unsentPackets)),
     ("rule_hits", "{}")]
  }

  function StatsText(s: Stats): (t: string) {
    ObjectText([("stats", ObjectText(PacketFields(s) + BurstFields(s)))])
  }

  function StatsPayload(s: Stats, capacity: nat): (r: Option<string>) {
    Print(StatsText(s), capacity)
  }

  function SuccessText(id: string, payload: string): (t: string) {
    ObjectText([("id", Quote(id)), ("ok", "true"), ("payload", payload)])
  }

  function MakeSuccess(id: string, payload: string, capacity: nat): (r: Option<string>) {
    if |Escape(id)| < MAX_ID_LEN * 2 + 1 then Print(SuccessText(id, payload), capacity) else None
  }

  function ErrorText(id: string, code: ErrorCode, message: string): (t: string) {
    ObjectText([("id", Quote(id)), ("ok", "false"),
                ("error", ObjectText([("code", "\"" + CodeName(code) + "\""), ("message", Quote(message))]))])
  }

  const UNKNOWN_ID := "unknown"

  function MakeError(id: string, code: ErrorCode, message: string, capacity: nat): (r: Option<string>) {
    var safeId := if id == [] then UNKNOWN_ID else id;
    var safeMessage := if message == [] then "internal error" else message;
    if |Escape(safeId)| < MAX_ID_LEN * 2 + 1 && |Escape(safeMessage)| < ERROR_MESSAGE_BUFFER
    then Print(ErrorText(safeId, code, safeMessage), capacity)
    else Print(ErrorText(UNKNOWN_ID, Internal, "internal error"), capacity)
  }

  // ----- every rendered text is a value of the grammar -----

  predicate PlainChar(c: char) {
    'a' <= c <= 'z' || 'A' <= c <= 'Z' || '0' <= c <= '9' || c == '_' || c == '-' || c == '.'
  }

  /** A string of name characters, none of which needs an escape. */
  predicate Plain(s: string) {
    forall i :: 0 <= i < |s| ==> PlainChar(s[i])
  }

  lemma {:induction false} PlainEscape(s: string)
    requires Plain(s)
    ensures Escape(s) == s && Quote(s) == "\"" + s + "\""
  {
    if s != [] {
      var init := s[..|s| - 1];
      assert s == init + [s[|s| - 1]];
      EscapeStep(init, s[|s| - 1]);
      PlainEscape(init);
    }
  }

  /** `t` is the text of the well-formed value `v`, which can be followed by a comma or a bracket. */
  ghost predicate IsText(t: string, v: Value) {
    WfValue(v) && t == ValueOnto(v, [])
  }

  lemma StringIsText(s: string)
    ensures IsText(Quote(s), Str(EscapeBody(s)))
  {
    EscapeMeans(s);
    QuoteIsQuoted(s, []);
    assert Quote(s) + [] == Quote(s);
  }

  lemma DecIsText(n: nat)
    ensures IsText(Dec(n), Num(Number(false, Dec(n), None, None)))
  {
    assert Dec(n) + [] == Dec(n);
  }

  lemma BoolIsText(b: bool)
    ensures IsText(BoolText(b), Lit(if b then True else False))
  {
    assert BoolText(b) + [] == BoolText(b);
  }

  ghost function Tree(fields: seq<(string, string)>, values: seq<Value>): Members
    requires |fields| == |values| > 0
  {
    var m := Member(EscapeBody(fields[0].0), [], [], values[0]);
    if |fields| == 1 then MembersLast([], m, [])
    else MembersMore([], m, [], Tree(fields[1..], values[1..]))
  }

  ghost predicate AreTexts(fields: seq<(string, string)>, values: seq<Value>) {
    && |fields| == |values| > 0
    && forall i :: 0 <= i < |fields| ==> Plain(fields[i].0) && IsText(fields[i].1, values[i])
  }

  lemma PairText(key: string, text: string, rest: string)
    ensures ("\"" + key + "\"") + ([':'] + (text + rest)) == "\"" + key + "\":" + text + rest
  {
    assert ("\"" + key + "\"") + [':'] == "\"" + key + "\":";
  }

  lemma MemberText(key: string, text: string, v: Value, rest: string)
    requires Plain(key) && IsText(text, v)
    ensures var m := Member(EscapeBody(key), [], [], v);
            WfMember(m) && MemberOnto(m, rest) == "\"" + key + "\":" + text + rest
  {
    EscapeMeans(key);
    PlainEscape(key);
    ValueOntoIsConcat(v, rest);
    PairText(key, text, rest);
    var tail := [':'] + (text + rest);
    assert [] + ([':'] + ([] + (text + rest))) == tail;
    QuoteIsQuoted(key, tail);
  }

  lemma {:induction false} FieldsAreText(fields: seq<(string, string)>, values: seq<Value>)
    requires AreTexts(fields, values)
    ensures WfMembers(Tree(fields, values))
    ensures MembersOnto(Tree(fields, values), []) == FieldTexts(fields) + "}"
  {
    var f := fields[0];
    if |fields| == 1 {
      LastFieldText(f.0, f.1, values[0]);
      assert FieldTexts(fields) == "\"" + f.0 + "\":" + f.1 + [] == "\"" + f.0 + "\":" + f.1;
    } else {
      FieldsAreText(fields[1..], values[1..]);
      MoreFieldText(f.0, f.1, values[0], Tree(fields[1..], values[1..]), FieldTexts(fields[1..]));
    }
  }

  lemma LastFieldText(key: string, text: string, v: Value)
    requires Plain(key) && IsText(text, v)
    ensures var m := Member(EscapeBody(key), [], [], v);
            WfMember(m) && MembersOnto(MembersLast([], m, []), []) == ("\"" + key + "\":" + text) + "}"
  {
    MemberText(key, text, v, "}");
    assert [] + (['}'] + []) == "}";
  }

  lemma MoreFieldText(key: string, text: string, v: Value, more: Members, tail: string)
    requires Plain(key) && IsText(text, v) && MembersOnto(more, []) == tail + "}"
    ensures var m := Member(EscapeBody(key), [], [], v);
            && WfMember(m)
            && MembersOnto(MembersMore([], m, [], more), []) == ("\"" + key + "\":" + text + ("," + tail)) + "}"
  {
    var head, rest := "\"" + key + "\":" + text, "," + (tail + "}");
    MemberText(key, text, v, rest);
    assert [] + ([','] + (tail + "}")) == rest;
    Appended(head, tail);
  }

  lemma Appended(head: string, tail: string)
    ensures head + ("," + (tail + "}")) == (head + ("," + tail)) + "}"
  {
  }

  /** The object of named texts is the object of their values. */
  lemma ObjectIsText(fields: seq<(string, string)>, values: seq<Value>)
    requires AreTexts(fields, values)
    ensures IsText(ObjectText(fields), Obj(Tree(fields, values)))
  {
    FieldsAreText(fields, values);
    assert ObjectText(fields) == ['{'] + (FieldTexts(fields) + "}");
  }

  ghost predicate AllWithin(values: seq<Value>, d: nat) {
    forall i :: 0 <= i < |values| ==> Depth(values[i]) <= d
  }

  lemma {:induction false} TreeDepth(fields: seq<(string, string)>, values: seq<Value>, d: nat)
    requires |fields| == |values| > 0 && AllWithin(values, d)
    ensures MembersDepth(Tree(fields, values)) <= d
  {
    if |fields| > 1 {
      TreeDepth(fields[1..], values[1..], d);
    }
  }

  /** `t` is the complete text of one object of nesting at most `d`. */
  ghost predicate IsObject(t: string, d: nat) {
    exists m :: IsText(t, Obj(m)) && Depth(Obj(m)) <= d
  }

  lemma ObjectIsObject(fields: seq<(string, string)>, values: seq<Value>, d: nat)
    requires AreTexts(fields, values) && AllWithin(values, d)
    ensures IsObject(ObjectText(fields), d + 1)
  {
    ObjectIsText(fields, values);
    TreeDepth(fields, values, d);
    assert IsText(ObjectText(fields), Obj(Tree(fields, values)));
  }

  /** An object with one named member object. */
  lemma WrappedObject(key: string, inner: string, d: nat)
    requires Plain(key) && IsObject(inner, d)
    ensures IsObject(ObjectText([(key, inner)]), d + 1)
  {
    var m :| IsText(inner, Obj(m)) && Depth(Obj(m)) <= d;
    ObjectIsObject([(key, inner)], [Obj(m)], d);
  }

  lemma AckIsObject(message: string)
    ensures IsObject(AckText(message), 1)
  {
    StringIsText(message);
    ObjectIsObject([("message", Quote(message))], [Str(EscapeBody(message))], 0);
  }

  function NumberOf(n: nat): (v: Value) {
    Num(Number(false, Dec(n), None, None))
  }

  function LiteralOf(b: bool): (v: Value) {
    Lit(if b then True else False)
  }

  /** Named texts of values of nesting at most `d`. */
  ghost predicate Named(fields: seq<(string, string)>, d: nat) {
    fields == [] || exists values :: AreTexts(fields, values) && AllWithin(values, d)
  }

  lemma AddField(fields: seq<(string, string)>, key: string, text: string, v: Value, d: nat)
    requires Named(fields, d) && Plain(key) && IsText(text, v) && Depth(v) <= d
    ensures Named(fields + [(key, text)], d)
  {
    var values: seq<Value> := [];
    if fields != [] {
      values :| AreTexts(fields, values) && AllWithin(values, d);
    }
    assert AreTexts(fields + [(key, text)], values + [v]) && AllWithin(values + [v], d);
  }

  lemma AddNumber(fields: seq<(string, string)>, key: string, n: nat, d: nat)
    requires Named(fields, d) && Plain(key)
    ensures Named(fields + [(key, Dec(n))], d)
  {
    DecIsText(n);
    AddField(fields, key, Dec(n), NumberOf(n), d);
  }

  lemma AddString(fields: seq<(string, string)>, key: string, s: string, d: nat)
    requires Named(fields, d) && Plain(key)
    ensures Named(fields + [(key, Quote(s))], d)
  {
    StringIsText(s);
    AddField(fields, key, Quote(s), Str(EscapeBody(s)), d);
  }

  lemma AddPlain(fields: seq<(string, string)>, key: string, s: string, d: nat)
    requires Named(fields, d) && Plain(key) && Plain(s)
    ensures Named(fields + [(key, "\"" + s + "\"")], d)
  {
    PlainEscape(s);
    AddString(fields, key, s, d);
  }

  lemma AddBool(fields: seq<(string, string)>, key: string, b: bool, d: nat)
    requires Named(fields, d) && Plain(key)
    ensures Named(fields + [(key, BoolText(b))], d)
  {
    BoolIsText(b);
    AddField(fields, key, BoolText(b), LiteralOf(b), d);
  }

  lemma NamedIsObject(fields: seq<(string, string)>, d: nat)
    requires Named(fields, d) && fields != []
    ensures IsObject(ObjectText(fields), d + 1)
  {
    var values :| AreTexts(fields, values) && AllWithin(values, d);
    ObjectIsObject(fields, values, d);
  }

  lemma PlainVersion()
    ensures Plain("service") && Plain("version") && Plain("dpdk_version")
    ensures Plain(SERVICE_NAME) && Plain(VERSION) && Plain(DPDK_VERSION)
  {
  }

  lemma PlainHealth()
    ensures Plain("health") && Plain("state") && Plain("message")
    ensures Plain("applied_rule_version") && Plain("ports_ready") && Plain("paused")
  {
  }

  lemma PlainStats()
    ensures Plain("stats") && Plain("rx_packets") && Plain("tx_packets") && Plain("drop_packets")
    ensures Plain("drop_parse_errors") && Plain("drop_no_match") && Plain("rx_bursts")
    ensures Plain("tx_bursts") && Plain("unsent_packets") && Plain("rule_hits")
  {
  }

  lemma PlainState(s: DpState)
    ensures Plain(StateName(s))
  {
  }

  lemma PlainCode(c: ErrorCode)
    ensures Plain(CodeName(c))
  {
  }

  lemma VersionIsObject()
    ensures IsObject(VersionText(), 1)
  {
    PlainVersion();
    var fields := [];
    AddPlain(fields, "service", SERVICE_NAME, 0);
    fields := fields + [("service", "\"" + SERVICE_NAME + "\"")];
    AddPlain(fields, "version", VERSION, 0);
    fields := fields + [("version", "\"" + VERSION + "\"")];
    AddPlain(fields, "dpdk_version", DPDK_VERSION, 0);
    fields := fields + [("dpdk_version", "\"" + DPDK_VERSION + "\"")];
    NamedIsObject(fields, 0);
    assert fields == [
      ("service", "\"" + SERVICE_NAME + "\""), ("version", "\"" + VERSION + "\""),
      ("dpdk_version", "\"" + DPDK_VERSION + "\"")];
  }

  lemma HealthHeadNamed(h: Health)
    ensures Named([("state", "\"" + StateName(h.state) + "\""), ("message", Quote(h.message))], 0)
  {
    PlainHealth();
    PlainState(h.state);
    AddPlain([], "state", StateName(h.state), 0);
    var fields := [("state", "\"" + StateName(h.state) + "\"")];
    assert [] + fields == fields;
    AddString(fields, "message", h.message, 0);
    assert fields + [("message", Quote(h.message))] == [fields[0], ("message", Quote(h.message))];
  }

  /** Three more fields of health behind those in front. */
  lemma HealthTailNamed(fields: seq<(string, string)>, h: Health)
    requires Named(fields, 0)
    ensures Named(fields + [("applied_rule_version", Dec(h.ruleVersion))] + [("ports_ready", BoolText(h.portsReady))]
                  + [("paused", BoolText(h.paused))], 0)
  {
    PlainHealth();
    AddNumber(fields, "applied_rule_version", h.ruleVersion, 0);
    var more := fields + [("applied_rule_version", Dec(h.ruleVersion))];
    AddBool(more, "ports_ready", h.portsReady, 0);
    AddBool(more + [("ports_ready", BoolText(h.portsReady))], "paused", h.paused, 0);
  }

  lemma HealthFieldsNamed(h: Health)
    ensures Named(HealthFields(h), 0)
  {
    var fields := [("state", "\"" + StateName(h.state) + "\""), ("message", Quote(h.message))];
    HealthHeadNamed(h);
    HealthTailNamed(fields, h);
    assert HealthFields(h) == fields + [("applied_rule_version", Dec(h.ruleVersion))]
                              + [("ports_ready", BoolText(h.portsReady))] + [("paused", BoolText(h.paused))];
  }

  lemma HealthIsObject(h: Health)
    ensures IsObject(HealthText(h), 2)
  {
    HealthFieldsNamed(h);
    NamedIsObject(HealthFields(h), 0);
    PlainHealth();
    WrappedObject("health", ObjectText(HealthFields(h)), 1);
  }

  lemma PacketFieldsNamed(s: Stats)
    ensures Named(PacketFields(s), 1)
  {
    PlainStats();
    AddNumber([], "rx_packets", s.rxPackets, 1);
    var fields := [("rx_packets", Dec(s.rxPackets))];
    AddNumber(fields, "tx_packets", s.txPackets, 1);
    fields := fields + [("tx_packets", Dec(s.txPackets))];
    AddNumber(fields, "drop_packets", s.dropPackets, 1);
    fields := fields + [("drop_packets", Dec(s.dropPackets))];
    AddNumber(fields, "drop_parse_errors", s.dropParseErrors, 1);
    fields := fields + [("drop_parse_errors", Dec(s.dropParseErrors))];
    AddNumber(fields, "drop_no_match", s.dropNoMatch, 1);
  }

  lemma BurstFieldsNamed(fields: seq<(string, string)>, s: Stats)
    requires Named(fields, 1)
    ensures Named(fields + BurstFields(s), 1)
  {
    PlainStats();
    AddNumber(fields, "rx_bursts", s.rxBursts, 1);
    var more := fields + [("rx_bursts", Dec(s.rxBursts))];
    AddNumber(more, "tx_bursts", s.txBursts, 1);
    more := more + [("tx_bursts", Dec(s.txBursts))];
    AddNumber(more, "unsent_packets", s.unsentPackets, 1);
    more := more + [("unsent_packets", Dec(s.unsentPackets))];
    assert IsText("{}", Obj(MembersEnd([])));
    AddField(more, "rule_hits", "{}", Obj(MembersEnd([])), 1);
    assert more + [("rule_hits", "{}")] == fields + BurstFields(s);
  }

  lemma StatsIsObject(s: Stats)
    ensures IsObject(StatsText(s), 3)
  {
    PacketFieldsNamed(s);
    BurstFieldsNamed(PacketFields(s), s);
    NamedIsObject(PacketFields(s) + BurstFields(s), 1);
    PlainStats();
    WrappedObject("stats", ObjectText(PacketFields(s) + BurstFields(s)), 2);
  }

  lemma PlainPort(p: Port)
    ensures Plain("name") && Plain("port_id") && Plain("role") && Plain("state")
    ensures Plain(RoleName(p)) && Plain(PortStateName(p))
  {
  }

  lemma PortFieldsNamed(p: Port)
    ensures Named(PortFields(p), 0)
  {
    PlainPort(p);
    AddString([], "name", p.name, 0);
    var fields := [("name", Quote(p.name))];
    AddNumber(fields, "port_id", p.portId, 0);
    fields := fields + [("port_id", Dec(p.portId))];
    AddPlain(fields, "role", RoleName(p), 0);
    fields := fields + [("role", "\"" + RoleName(p) + "\"")];
    AddPlain(fields, "state", PortStateName(p), 0);
  }

  lemma PortIsObject(p: Port)
    ensures IsObject(PortText(p), 1)
  {
    PortFieldsNamed(p);
    NamedIsObject(PortFields(p), 0);
  }

  lemma LastItem(text: string, v: Value)
    requires IsText(text, v)
    ensures ItemsOnto(ItemsLast([], v, []), []) == text + "]"
  {
    assert [] + ([']'] + []) == "]";
    ValueOntoIsConcat(v, "]");
  }

  lemma MoreItems(text: string, v: Value, more: Items, moreText: string)
    requires IsText(text, v) && ItemsOnto(more, []) == moreText + "]"
    ensures ItemsOnto(ItemsMore([], v, [], more), []) == (text + ("," + moreText)) + "]"
  {
    var rest := "," + (moreText + "]");
    assert [] + ([','] + (moreText + "]")) == rest;
    ValueOntoIsConcat(v, rest);
    assert text + rest == (text + ("," + moreText)) + "]";
  }

  lemma {:induction false} ObjectItems(items: seq<string>) returns (xs: Items)
    requires forall i :: 0 <= i < |items| ==> IsObject(items[i], 1)
    ensures WfItems(xs) && ItemsOnto(xs, []) == Commas(items) + "]" && ItemsDepth(xs) <= 1
  {
    if items == [] {
      xs := ItemsEnd([]);
      return;
    }
    assert IsObject(items[0], 1);
    var m :| IsText(items[0], Obj(m)) && Depth(Obj(m)) <= 1;
    if |items| == 1 {
      xs := ItemsLast([], Obj(m), []);
      LastItem(items[0], Obj(m));
      assert Commas(items) == items[0];
    } else {
      var rest := ObjectItems(items[1..]);
      xs := ItemsMore([], Obj(m), [], rest);
      MoreItems(items[0], Obj(m), rest, Commas(items[1..]));
    }
  }

  lemma PortsIsObject(ports: seq<Port>)
    ensures IsObject(PortsText(ports), 3)
  {
    var items := PortTexts(ports);
    forall i | 0 <= i < |items| ensures IsObject(items[i], 1) {
      PortIsObject(ports[i]);
    }
    var xs := ObjectItems(items);
    var text := "[" + Commas(items) + "]";
    assert text == ['['] + (Commas(items) + "]");
    assert IsText(text, Arr(xs));
    ObjectIsObject([("ports", text)], [Arr(xs)], 2);
  }

  lemma SuccessIsObject(id: string, payload: string, d: nat)
    requires IsObject(payload, d)
    ensures IsObject(SuccessText(id, payload), d + 1)
  {
    var m :| IsText(payload, Obj(m)) && Depth(Obj(m)) <= d;
    StringIsText(id);
    BoolIsText(true);
    ObjectIsObject([("id", Quote(id)), ("ok", "true"), ("payload", payload)],
                   [Str(EscapeBody(id)), LiteralOf(true), Obj(m)], d);
  }

  lemma ErrorIsObject(id: string, code: ErrorCode, message: string)
    ensures IsObject(ErrorText(id, code, message), 2)
  {
    PlainCode(code);
    PlainEscape(CodeName(code));
    StringIsText(CodeName(code));
    StringIsText(message);
    var inner := [("code", "\"" + CodeName(code) + "\""), ("message", Quote(message))];
    ObjectIsObject(inner, [Str(EscapeBody(CodeName(code))), Str(EscapeBody(message))], 0);
    var m :| IsText(ObjectText(inner), Obj(m)) && Depth(Obj(m)) <= 1;
    StringIsText(id);
    BoolIsText(false);
    ObjectIsObject([("id", Quote(id)), ("ok", "false"), ("error", ObjectText(inner))],
                   [Str(EscapeBody(id)), LiteralOf(false), Obj(m)], 1);
  }

  /** An object text is scanned as one value, to its last byte. */
  lemma ObjectIsScanned(t: string, d: nat)
    requires IsObject(t, d) && d <= MAX_NESTING
    ensures SkipValue(t, 1) == Ok([])
  {
    var m :| IsText(t, Obj(m)) && Depth(Obj(m)) <= d;
    ValueScanned([], Obj(m), [], 1);
    assert [] + t == t;
  }

  // ----- the buffers suffice -----

  lemma {:induction false} SmallFields(fields: seq<(string, string)>, small: nat)
    requires forall i :: 0 <= i < |fields| ==> |fields[i].0| + |fields[i].1| <= small
    ensures |FieldTexts(fields)| <= |fields| * (small + 4)
  {
    if fields != [] {
      SmallFields(fields[1..], small);
    }
  }

  lemma {:induction false} OneLargeField(fields: seq<(string, string)>, k: nat, large: nat, small: nat)
    requires k < |fields| && |fields[k].0| + |fields[k].1| <= large
    requires forall i :: 0 <= i < |fields| && i != k ==> |fields[i].0| + |fields[i].1| <= small
    ensures |FieldTexts(fields)| <= large + 4 + (|fields| - 1) * (small + 4)
  {
    if k == 0 {
      SmallFields(fields[1..], small);
    } else {
      OneLargeField(fields[1..], k - 1, large, small);
    }
  }

  const U64: nat := 0x1_0000_0000_0000_0000
  const U32: nat := 0x1_0000_0000
  const U16: nat := 0x1_0000

  lemma PowersOfTen()
    ensures Pow10(20) > U64 && Pow10(10) > U32 && Pow10(5) > U16
  {
    assert Pow10(5) == 100_000;
    assert Pow10(10) == 10_000_000_000;
    assert Pow10(15) == 1_000_000_000_000_000;
    assert Pow10(20) == 100_000_000_000_000_000_000;
  }

  predicate WfStats(s: Stats) {
    && s.rxPackets < U64 && s.txPackets < U64 && s.dropPackets < U64 && s.dropParseErrors < U64
    && s.dropNoMatch < U64 && s.rxBursts < U64 && s.txBursts < U64 && s.unsentPackets < U64
  }

  predicate WfHealth(h: Health) {
    |h.message| < MESSAGE_LEN && h.ruleVersion < U32
  }

  predicate WfPort(p: Port) {
    |p.name| < NAME_LEN && p.portId < U16
  }

  lemma StatsFit(s: Stats)
    requires WfStats(s)
    ensures StatsPayload(s, PAYLOAD_BUFFER).Some?
  {
    PowersOfTen();
    DecLength(s.rxPackets, 20); DecLength(s.txPackets, 20); DecLength(s.dropPackets, 20);
    DecLength(s.dropParseErrors, 20); DecLength(s.dropNoMatch, 20); DecLength(s.rxBursts, 20);
    DecLength(s.txBursts, 20); DecLength(s.unsentPackets, 20);
    SmallFields(PacketFields(s) + BurstFields(s), 54);
  }

  lemma HealthFits(h: Health)
    requires WfHealth(h)
    ensures HealthPayload(h, PAYLOAD_BUFFER).Some?
  {
    PowersOfTen();
    EscapeLength(h.message);
    DecLength(h.ruleVersion, 10);
    var fields := [
      ("state", "\"" + StateName(h.state) + "\""), ("message", Quote(h.message)),
      ("applied_rule_version", Dec(h.ruleVersion)), ("ports_ready", BoolText(h.portsReady)),
      ("paused", BoolText(h.paused))];
    OneLargeField(fields, 1, 270, 50);
  }

  lemma PortFits(p: Port)
    requires WfPort(p)
    ensures NameFits(p) && |PortText(p)| <= 170
  {
    PowersOfTen();
    EscapeLength(p.name);
    DecLength(p.portId, 5);
    var role, state := RoleName(p), PortStateName(p);
    OneLargeField([("name", Quote(p.name)), ("port_id", Dec(p.portId)),
                   ("role", "\"" + role + "\""), ("state", "\"" + state + "\"")], 0, 72, 24);
  }

  lemma PortsFit(ports: seq<Port>)
    requires |ports| <= 2 && forall i :: 0 <= i < |ports| ==> WfPort(ports[i])
    ensures PortsPayload(ports, PAYLOAD_BUFFER).Some?
  {
    forall i | 0 <= i < |ports| ensures NameFits(ports[i]) && |PortText(ports[i])| <= 170 {
      PortFits(ports[i]);
    }
    PortsTextShape(ports);
    var items := PortTexts(ports);
    if |items| == 2 {
      assert items == [items[0], items[1]] && items[1..] == [items[1]];
    }
    assert |Commas(items)| <= 341;
  }

  lemma AckFits(message: string)
    requires |message| < MESSAGE_LEN
    ensures AckPayload(message, PAYLOAD_BUFFER).Some?
  {
    EscapeLength(message);
    SmallFields([("message", Quote(message))], 270);
  }

  lemma VersionFits()
    ensures VersionPayload(PAYLOAD_BUFFER).Some?
  {
    SmallFields([("service", "\"" + SERVICE_NAME + "\""), ("version", "\"" + VERSION + "\""),
                ("dpdk_version", "\"" + DPDK_VERSION + "\"")], 50);
  }

  lemma SuccessFits(id: string, payload: string)
    requires |id| <= MAX_ID_LEN && |payload| < PAYLOAD_BUFFER
    ensures MakeSuccess(id, payload, RESPONSE_BUFFER).Some?
  {
    EscapeLength(id);
    OneLargeField([("id", Quote(id)), ("ok", "true"), ("payload", payload)], 2, 1038, 134);
  }

  lemma CodeLength(code: ErrorCode)
    ensures |CodeName(code)| <= 15
  {
  }

  /** The text of an error with a short id and message, and what its parts need. */
  lemma ErrorTextFits(id: string, code: ErrorCode, message: string)
    requires |id| <= MAX_ID_LEN && |message| < MESSAGE_LEN
    ensures |Escape(id)| < MAX_ID_LEN * 2 + 1 && |Escape(message)| < ERROR_MESSAGE_BUFFER
    ensures |ErrorText(id, code, message)| < RESPONSE_BUFFER
  {
    EscapeLength(id);
    EscapeLength(message);
    CodeLength(code);
    var inner := [("code", "\"" + CodeName(code) + "\""), ("message", Quote(message))];
    SmallFields(inner, 270);
    OneLargeField([("id", Quote(id)), ("ok", "false"), ("error", ObjectText(inner))], 2, 600, 134);
  }

  /** An error response is never truncated, and it carries the code and message whenever they are short. */
  lemma ErrorFits(id: string, code: ErrorCode, message: string)
    requires |id| <= MAX_ID_LEN && |message| < MESSAGE_LEN
    ensures var safeId := if id == [] then UNKNOWN_ID else id;
            var safeMessage := if message == [] then "internal error" else message;
            MakeError(id, code, message, RESPONSE_BUFFER) == Some(ErrorText(safeId, code, safeMessage))
  {
    ErrorTextFits(if id == [] then UNKNOWN_ID else id, code, if message == [] then "internal error" else message);
  }

  // ----- the id comes back -----

  /** The text of a response is an opening brace, the id key, and then the quoted id. */
  predicate AnswersId(response: string, id: string) {
    && |response| > 6 && response[..6] == "{\"id\":"
    && var r := ScanString(response[6..], Some(ID_BUFFER)); r.Read? && r.out == id
  }

  lemma Regrouped(head: string, q: string, tail: string)
    ensures "{" + (head + q + ("," + tail)) + "}" == ("{" + head) + (q + ("," + tail + "}"))
  {
  }

  lemma IdFirst(id: string, rest: seq<(string, string)>)
    requires rest != []
    ensures ObjectText([("id", Quote(id))] + rest) == "{\"id\":" + (Quote(id) + ("," + FieldTexts(rest) + "}"))
  {
    var fields := [("id", Quote(id))] + rest;
    assert fields[1..] == rest;
    var head := "\"" + "id" + "\":";
    assert FieldTexts(fields) == head + Quote(id) + ("," + FieldTexts(rest));
    Regrouped(head, Quote(id), FieldTexts(rest));
    assert "{" + head == "{\"id\":";
  }

  lemma ObjectAnswersId(id: string, rest: seq<(string, string)>)
    requires |id| <= MAX_ID_LEN && rest != []
    ensures AnswersId(ObjectText([("id", Quote(id))] + rest), id)
  {
    var tail := "," + FieldTexts(rest) + "}";
    IdFirst(id, rest);
    assert ("{\"id\":" + (Quote(id) + tail))[6..] == Quote(id) + tail;
    ScanUndoesEscape(id, tail, ID_BUFFER);
  }

  lemma SuccessAnswersId(id: string, payload: string)
    requires |id| <= MAX_ID_LEN
    ensures AnswersId(SuccessText(id, payload), id)
  {
    var rest := [("ok", "true"), ("payload", payload)];
    assert [("id", Quote(id))] + rest == [("id", Quote(id)), ("ok", "true"), ("payload", payload)];
    ObjectAnswersId(id, rest);
  }

  lemma ErrorAnswersId(id: string, code: ErrorCode, message: string)
    requires |id| <= MAX_ID_LEN
    ensures AnswersId(ErrorText(id, code, message), id)
  {
    var inner := ObjectText([("code", "\"" + CodeName(code) + "\""), ("message", Quote(message))]);
    var rest := [("ok", "false"), ("error", inner)];
    assert [("id", Quote(id))] + rest == [("id", Quote(id)), ("ok", "false"), ("error", inner)];
    ObjectAnswersId(id, rest);
  }
}
