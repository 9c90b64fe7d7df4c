/**
 When a rendered response is JSON text as sections 2 to 7 of RFC 8259 define it, and so readable for any client: the
 strict part of the scanner's grammar, without trailing commas, bare control bytes and incomplete numbers.
 */
module StandardJson {
  import opened JsonGrammar
  import opened JsonEscape
  import opened Responses
  import opened ResponseFields

  // ----- the strict part of the grammar -----

  predicate StrictBody(b: Body) {
    forall i :: 0 <= i < |b| && b[i].Raw? ==> b[i].c >= ' '
  }

  predicate StrictNumber(n: Number) {
    && n.whole != [] && (|n.whole| == 1 || n.whole[0] != '0')
    && (n.frac.Some? ==> n.frac.value != [])
    && (n.exp.Some? ==> n.exp.value.digits != [])
  }

  predicate Strict(v: Value) {
    match v
    case Str(body) => StrictBody(body)
    case Num(number) => StrictNumber(number)
    case Lit(_) => true
    case Arr(items) => StrictItems(items)
    case Obj(members) => StrictMembers(members)
  }

  /** No comma before the closing bracket. */
  predicate StrictItems(xs: Items) {
    match xs
    case ItemsEnd(_) => true
    case ItemsLast(_, item, _) => Strict(item)
    case ItemsMore(_, item, _, rest) => Strict(item) && !rest.ItemsEnd? && StrictItems(rest)
  }

  predicate StrictMembers(xs: Members) {
    match xs
    case MembersEnd(_) => true
    case MembersLast(_, m, _) => StrictBody(m.key) && Strict(m.value)
    case MembersMore(_, m, _, rest) =>
      StrictBody(m.key) && Strict(m.value) && !rest.MembersEnd? && StrictMembers(rest)
  }

  /** A strict value with white space around it. */
  ghost predicate IsJsonText(t: string) {
    exists w, v, u :: Ws(w) && Ws(u) && WfValue(v) && Strict(v) && t == w + ValueOnto(v, u)
  }

  /** The complete text of a strict object. */
  ghost predicate StrictObject(t: string) {
    exists xs :: IsText(t, Obj(xs)) && StrictMembers(xs)
  }

  lemma StrictObjectIsText(t: string)
    requires StrictObject(t)
    ensures IsJsonText(t)
  {
    var xs :| IsText(t, Obj(xs)) && StrictMembers(xs);
    var w: string := [];
    assert Ws(w) && WfValue(Obj(xs)) && Strict(Obj(xs)) && t == w + ValueOnto(Obj(xs), w);
  }

  // ----- no text of the standard has other control bytes than white space -----

  predicate PrintableCh(c: char) {
    c >= ' ' || IsWs(c)
  }

  predicate Printable(s: string) {
    forall i :: 0 <= i < |s| ==> PrintableCh(s[i])
  }

  lemma PrintableConcat(a: string, b: string)
    ensures Printable(a + b) <==> Printable(a) && Printable(b)
  {
    if Printable(a + b) {
      assert forall i :: 0 <= i < |a| ==> a[i] == (a + b)[i];
      assert forall i :: 0 <= i < |b| ==> b[i] == (a + b)[|a| + i];
    }
  }

  lemma {:induction false} BodyPrintable(b: Body, rest: string)
    requires WfBody(b) && StrictBody(b) && Printable(rest)
    ensures Printable(BodyOnto(b, rest))
  {
    if b != [] {
      BodyPrintable(b[1..], rest);
    }
  }

  lemma NumberPrintable(n: Number, rest: string)
    requires WfNumber(n) && Printable(rest)
    ensures Printable(NumberOnto(n, rest))
  {
    var e := ExponentOnto(n.exp, rest);
    assert Printable(e) by {
      if n.exp.Some? {
        PrintableConcat(n.exp.value.digits, rest);
      }
    }
    var f := FractionOnto(n.frac, e);
    assert Printable(f) by {
      if n.frac.Some? {
        PrintableConcat(n.frac.value, e);
      }
    }
    PrintableConcat(n.whole, f);
  }

  lemma {:induction false} ValuePrintable(v: Value, rest: string)
    requires WfValue(v) && Strict(v) && Printable(rest)
    ensures Printable(ValueOnto(v, rest))
    decreases v
  {
    match v
    case Str(body) => BodyPrintable(body, ['\"'] + rest);
    case Num(number) => NumberPrintable(number, rest);
    case Lit(literal) => PrintableConcat(LiteralText(literal), rest);
    case Arr(items) => ItemsPrintable(items, rest);
    case Obj(members) => MembersPrintable(members, rest);
  }

  lemma {:induction false} ItemsPrintable(xs: Items, rest: string)
    requires WfItems(xs) && StrictItems(xs) && Printable(rest)
    ensures Printable(ItemsOnto(xs, rest))
    decreases xs
  {
    match xs
    case ItemsEnd(before) => PrintableConcat(before, [']'] + rest);
    case ItemsLast(before, item, after) =>
      PrintableConcat(after, [']'] + rest);
      ValuePrintable(item, after + ([']'] + rest));
      PrintableConcat(before, ValueOnto(item, after + ([']'] + rest)));
    case ItemsMore(before, item, after, more) =>
      ItemsPrintable(more, rest);
      var follow := [','] + ItemsOnto(more, rest);
      PrintableConcat(after, follow);
      ValuePrintable(item, after + follow);
      PrintableConcat(before, ValueOnto(item, after + follow));
  }

  lemma {:induction false} MembersPrintable(xs: Members, rest: string)
    requires WfMembers(xs) && StrictMembers(xs) && Printable(rest)
    ensures Printable(MembersOnto(xs, rest))
    decreases xs
  {
    match xs
    case MembersEnd(before) => PrintableConcat(before, ['}'] + rest);
    case MembersLast(before, m, after) =>
      PrintableConcat(after, ['}'] + rest);
      MemberPrintable(m, after + (['}'] + rest));
      PrintableConcat(before, MemberOnto(m, after + (['}'] + rest)));
    case MembersMore(before, m, after, more) =>
      MembersPrintable(more, rest);
      var follow := [','] + MembersOnto(more, rest);
      PrintableConcat(after, follow);
      MemberPrintable(m, after + follow);
      PrintableConcat(before, MemberOnto(m, after + follow));
  }

  lemma {:induction false} MemberPrintable(m: Member, rest: string)
    requires WfMember(m) && StrictBody(m.key) && Strict(m.value) && Printable(rest)
    ensures Printable(MemberOnto(m, rest))
    decreases m
  {
    ValuePrintable(m.value, rest);
    var v := ValueOnto(m.value, rest);
    PrintableConcat(m.valueBefore, v);
    var tail := [':'] + (m.valueBefore + v);
    PrintableConcat(m.keyAfter, tail);
    BodyPrintable(m.key, ['\"'] + (m.keyAfter + tail));
  }

  /** Text of the standard has no control bytes but white space. */
  lemma TextIsPrintable(t: string)
    requires IsJsonText(t)
    ensures Printable(t)
  {
    var w, v, u :| Ws(w) && Ws(u) && WfValue(v) && Strict(v) && t == w + ValueOnto(v, u);
    ValuePrintable(v, u);
    PrintableConcat(w, ValueOnto(v, u));
  }

  // ----- the escaper -----

  /** The escaper writes a strict body exactly for printable strings: other control bytes stay bare. */
  lemma EscapeIsStrict(s: string)
    ensures StrictBody(EscapeBody(s)) <==> Printable(s)
  {
    var b := EscapeBody(s);
    if StrictBody(b) {
      forall i | 0 <= i < |s|
        ensures PrintableCh(s[i])
      {
        assert b[i] == EscapeCh(s[i]);
      }
    }
  }

  lemma {:induction false} EscapedPrintable(s: string)
    requires Printable(Escape(s))
    ensures Printable(s)
  {
    if s != [] {
      var n := |s| - 1;
      assert s == s[..n] + [s[n]];
      EscapeStep(s[..n], s[n]);
      PrintableConcat(Escape(s[..n]), ChOnto(EscapeCh(s[n]), []));
      EscapedPrintable(s[..n]);
      LastPrintable(s[n]);
    }
  }

  lemma LastPrintable(c: char)
    requires Printable(ChOnto(EscapeCh(c), []))
    ensures PrintableCh(c)
  {
    if EscapeCh(c).Raw? {
      assert ChOnto(EscapeCh(c), [])[0] == c;
    }
  }

  lemma QuotedPrintable(s: string)
    requires Printable(Quote(s))
    ensures Printable(s)
  {
    PrintableConcat("\"" + Escape(s), "\"");
    PrintableConcat("\"", Escape(s));
    EscapedPrintable(s);
  }

  // ----- objects of named texts -----

  /** Every value text of a printable object is printable. */
  lemma {:induction false} FieldsPrintable(fields: seq<(string, string)>, i: nat)
    requires i < |fields| && Printable(FieldTexts(fields))
    ensures Printable(fields[i].1)
  {
    var head := "\"" + fields[0].0 + "\":";
    var tail := if |fields| == 1 then [] else "," + FieldTexts(fields[1..]);
    assert FieldTexts(fields) == head + fields[0].1 + tail;
    PrintableConcat(head + fields[0].1, tail);
    PrintableConcat(head, fields[0].1);
    if i > 0 {
      PrintableConcat(",", FieldTexts(fields[1..]));
      FieldsPrintable(fields[1..], i - 1);
    }
  }

  lemma ObjectPrintable(fields: seq<(string, string)>, i: nat)
    requires i < |fields| && Printable(ObjectText(fields))
    ensures Printable(fields[i].1)
  {
    PrintableConcat("{" + FieldTexts(fields), "}");
    PrintableConcat("{", FieldTexts(fields));
    FieldsPrintable(fields, i);
  }

  ghost predicate AllStrict(values: seq<Value>) {
    forall i :: 0 <= i < |values| ==> Strict(values[i])
  }

  lemma PlainIsPrintable(s: string)
    requires Plain(s)
    ensures Printable(s)
  {
  }

  lemma {:induction false} TreeIsStrict(fields: seq<(string, string)>, values: seq<Value>)
    requires AreTexts(fields, values) && AllStrict(values)
    ensures StrictMembers(Tree(fields, values)) && !Tree(fields, values).MembersEnd?
  {
    PlainIsPrintable(fields[0].0);
    EscapeIsStrict(fields[0].0);
    assert Strict(values[0]);
    if |fields| > 1 {
      TreeIsStrict(fields[1..], values[1..]);
    }
  }

  lemma ObjectIsStrict(fields: seq<(string, string)>, values: seq<Value>)
    requires AreTexts(fields, values) && AllStrict(values)
    ensures StrictObject(ObjectText(fields))
  {
    ObjectIsText(fields, values);
    TreeIsStrict(fields, values);
    assert IsText(ObjectText(fields), Obj(Tree(fields, values)));
  }

  lemma WrappedIsStrict(key: string, inner: string)
    requires Plain(key) && StrictObject(inner)
    ensures StrictObject(ObjectText([(key, inner)]))
  {
    var xs :| IsText(inner, Obj(xs)) && StrictMembers(xs);
    ObjectIsStrict([(key, inner)], [Obj(xs)]);
  }

  lemma TextIsStrict(s: string)
    requires Printable(s)
    ensures Strict(Str(EscapeBody(s)))
  {
    EscapeIsStrict(s);
  }

  lemma {:induction false} DecHasNoLeadingZero(n: nat)
    ensures |Dec(n)| == 1 || Dec(n)[0] != '0'
  {
    if n >= 10 {
      DecHasNoLeadingZero(n / 10);
      if n / 10 < 10 {
        assert DigitChar(n / 10) != '0';
      }
    }
  }

  lemma NumberIsStrict(n: nat)
    ensures Strict(NumberOf(n))
  {
    DecHasNoLeadingZero(n);
  }

  // ----- the payloads -----

  /** Counters are standard text whatever their values. */
  lemma StatsIsStandard(s: Stats)
    ensures StrictObject(StatsText(s)) && IsJsonText(StatsText(s))
  {
    StatsAreTexts(s);
    NumberIsStrict(s.rxPackets); NumberIsStrict(s.txPackets); NumberIsStrict(s.dropPackets);
    NumberIsStrict(s.dropParseErrors); NumberIsStrict(s.dropNoMatch); NumberIsStrict(s.rxBursts);
    NumberIsStrict(s.txBursts); NumberIsStrict(s.unsentPackets);
    assert Strict(Obj(MembersEnd([])));
    ObjectIsStrict(StatsFields(s), StatsValues(s));
    PlainStats();
    WrappedIsStrict("stats", ObjectText(StatsFields(s)));
    StrictObjectIsText(StatsText(s));
  }

  lemma HealthIsStrict(h: Health)
    requires Printable(h.message)
    ensures StrictObject(HealthText(h))
  {
    HealthAreTexts(h);
    PlainState(h.state);
    PlainIsPrintable(StateName(h.state));
    TextIsStrict(StateName(h.state));
    TextIsStrict(h.message);
    NumberIsStrict(h.ruleVersion);
    ObjectIsStrict(HealthFields(h), HealthValues(h));
    PlainHealth();
    WrappedIsStrict("health", ObjectText(HealthFields(h)));
  }

  /** Health is standard text exactly when its message is printable. */
  lemma HealthIsStandard(h: Health)
    ensures IsJsonText(HealthText(h)) <==> Printable(h.message)
    ensures Printable(h.message) ==> StrictObject(HealthText(h))
  {
    if Printable(h.message) {
      HealthIsStrict(h);
      StrictObjectIsText(HealthText(h));
    }
    if IsJsonText(HealthText(h)) {
      TextIsPrintable(HealthText(h));
      var outer := [("health", ObjectText(HealthFields(h)))];
      ObjectPrintable(outer, 0);
      ObjectPrintable(HealthFields(h), 1);
      QuotedPrintable(h.message);
    }
  }

  /** An acknowledgement is standard text exactly when its message is printable. */
  lemma AckIsStandard(message: string)
    ensures IsJsonText(AckText(message)) <==> Printable(message)
    ensures Printable(message) ==> StrictObject(AckText(message))
  {
    var fields := [("message", Quote(message))];
    if Printable(message) {
      StringIsText(message);
      TextIsStrict(message);
      PlainHealth();
      ObjectIsStrict(fields, [Str(EscapeBody(message))]);
      StrictObjectIsText(AckText(message));
    }
    if IsJsonText(AckText(message)) {
      TextIsPrintable(AckText(message));
      ObjectPrintable(fields, 0);
      QuotedPrintable(message);
    }
  }

  /** A port is standard text exactly when its name is printable. */
  lemma PortIsStandard(p: Port)
    ensures IsJsonText(PortText(p)) <==> Printable(p.name)
    ensures Printable(p.name) ==> StrictObject(PortText(p))
  {
    if Printable(p.name) {
      PortIsStrict(p);
      StrictObjectIsText(PortText(p));
    }
    if IsJsonText(PortText(p)) {
      TextIsPrintable(PortText(p));
      ObjectPrintable(PortFields(p), 0);
      QuotedPrintable(p.name);
    }
  }

  lemma PortIsStrict(p: Port)
    requires Printable(p.name)
    ensures StrictObject(PortText(p))
  {
    PortAreTexts(p);
    PlainPort(p);
    PlainIsPrintable(RoleName(p));
    PlainIsPrintable(PortStateName(p));
    TextIsStrict(p.name);
    TextIsStrict(RoleName(p));
    TextIsStrict(PortStateName(p));
    NumberIsStrict(p.portId);
    ObjectIsStrict(PortFields(p), PortValues(p));
  }

  lemma {:induction false} StrictObjectItems(items: seq<string>) returns (xs: Items)
    requires forall i :: 0 <= i < |items| ==> StrictObject(items[i])
    ensures WfItems(xs) && ItemsOnto(xs, []) == Commas(items) + "]" && StrictItems(xs)
    ensures xs.ItemsEnd? <==> items == []
  {
    if items == [] {
      xs := ItemsEnd([]);
      return;
    }
    assert StrictObject(items[0]);
    var m :| IsText(items[0], Obj(m)) && StrictMembers(m);
    if |items| == 1 {
      xs := ItemsLast([], Obj(m), []);
      LastItem(items[0], Obj(m));
      assert Commas(items) == items[0];
    } else {
      var rest := StrictObjectItems(items[1..]);
      xs := ItemsMore([], Obj(m), [], rest);
      MoreItems(items[0], Obj(m), rest, Commas(items[1..]));
    }
  }

  /** A port list with printable names is standard text. */
  lemma PortsAreStrict(ports: seq<Port>)
    requires forall i :: 0 <= i < |ports| ==> Printable(ports[i].name)
    ensures StrictObject(PortsText(ports))
  {
    var items := PortTexts(ports);
    forall i | 0 <= i < |items|
      ensures StrictObject(items[i])
    {
      PortIsStrict(ports[i]);
    }
    var xs := StrictObjectItems(items);
    var text := "[" + Commas(items) + "]";
    assert text == ['['] + (Commas(items) + "]");
    assert IsText(text, Arr(xs)) && Strict(Arr(xs));
    ObjectIsStrict([("ports", text)], [Arr(xs)]);
  }

  lemma VersionIsStrict()
    ensures StrictObject(VersionText())
  {
    var fields := [("service", "\"" + SERVICE_NAME + "\""), ("version", "\"" + VERSION + "\""),
                   ("dpdk_version", "\"" + DPDK_VERSION + "\"")];
    var values := [Str(EscapeBody(SERVICE_NAME)), Str(EscapeBody(VERSION)), Str(EscapeBody(DPDK_VERSION))];
    PlainVersion();
    PlainIsText(SERVICE_NAME);
    PlainIsText(VERSION);
    PlainIsText(DPDK_VERSION);
    PlainIsPrintable(SERVICE_NAME);
    PlainIsPrintable(VERSION);
    PlainIsPrintable(DPDK_VERSION);
    TextIsStrict(SERVICE_NAME);
    TextIsStrict(VERSION);
    TextIsStrict(DPDK_VERSION);
    ObjectIsStrict(fields, values);
  }

  // ----- the responses -----

  /** A success response around a standard payload is standard text exactly when its id is printable. */
  lemma SuccessIsStandard(id: string, payload: string)
    requires StrictObject(payload)
    ensures IsJsonText(SuccessText(id, payload)) <==> Printable(id)
  {
    var fields := [("id", Quote(id)), ("ok", "true"), ("payload", payload)];
    if Printable(id) {
      var xs :| IsText(payload, Obj(xs)) && StrictMembers(xs);
      StringIsText(id);
      BoolIsText(true);
      TextIsStrict(id);
      ObjectIsStrict(fields, [Str(EscapeBody(id)), LiteralOf(true), Obj(xs)]);
      StrictObjectIsText(SuccessText(id, payload));
    }
    if IsJsonText(SuccessText(id, payload)) {
      TextIsPrintable(SuccessText(id, payload));
      ObjectPrintable(fields, 0);
      QuotedPrintable(id);
    }
  }

  lemma ErrorBodyIsStrict(code: ErrorCode, message: string)
    requires Printable(message)
    ensures StrictObject(ObjectText([("code", "\"" + CodeName(code) + "\""), ("message", Quote(message))]))
  {
    PlainCode(code);
    PlainIsText(CodeName(code));
    PlainIsPrintable(CodeName(code));
    TextIsStrict(CodeName(code));
    StringIsText(message);
    TextIsStrict(message);
    PlainHealth();
    ObjectIsStrict([("code", "\"" + CodeName(code) + "\""), ("message", Quote(message))],
                   [Str(EscapeBody(CodeName(code))), Str(EscapeBody(message))]);
  }

  /** An error response is standard text exactly when its id and message are printable. */
  lemma ErrorIsStandard(id: string, code: ErrorCode, message: string)
    ensures IsJsonText(ErrorText(id, code, message)) <==> Printable(id) && Printable(message)
  {
    var inner := [("code", "\"" + CodeName(code) + "\""), ("message", Quote(message))];
    var fields := [("id", Quote(id)), ("ok", "false"), ("error", ObjectText(inner))];
    if Printable(id) && Printable(message) {
      ErrorBodyIsStrict(code, message);
      var xs :| IsText(ObjectText(inner), Obj(xs)) && StrictMembers(xs);
      StringIsText(id);
      BoolIsText(false);
      TextIsStrict(id);
      ObjectIsStrict(fields, [Str(EscapeBody(id)), LiteralOf(false), Obj(xs)]);
      StrictObjectIsText(ErrorText(id, code, message));
    }
    if IsJsonText(ErrorText(id, code, message)) {
      TextIsPrintable(ErrorText(id, code, message));
      ObjectPrintable(fields, 0);
      QuotedPrintable(id);
      ObjectPrintable(fields, 2);
      ObjectPrintable(inner, 1);
      QuotedPrintable(message);
    }
  }
}
