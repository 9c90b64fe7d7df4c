/**
 The request parser of dpdkd/src/json_proto.c and the proof that it accepts exactly the texts in which the
 three keys id, cmd and payload occur once each, in any order and with any white space.
 */
module RequestParser {
  import opened JsonGrammar
  import opened JsonScanner

  const KEY_BUFFER: nat := 32
  const ID_BUFFER: nat := 65
  const CMD_BUFFER: nat := 33

  datatype RequestError =
    | Scanner(error: ScanError)
    | NotAnObject | KeyWithoutColon | DuplicateId | DuplicateCmd | DuplicatePayload
    | PayloadNotObject | UnexpectedField | ExpectedFieldEnd | TrailingData | MissingField

  /** The request, or the error and what the id buffer holds by then. */
  datatype RequestResult = Request(id: string, cmd: string) | Refused(error: RequestError, id: string)

  /** The have_* flags and the buffers behind them. */
  datatype Progress = Progress(id: Option<string>, cmd: Option<string>, payload: bool)

  /** What C string functions see of a buffer: everything before the first NUL. */
  function CString(s: string): (r: string)
    ensures r <= s
  {
    if s == [] || s[0] == '\0' then [] else [s[0]] + CString(s[1..])
  }

  function IdSoFar(p: Progress): (id: string) {
    if p.id.Some? then p.id.value else []
  }

  // ----- the parser -----

  function ParseRequest(s: string): (r: RequestResult) {
    var t := SkipWs(s);
    if StartsWith(t, '{') then ParseFields(t[1..], Progress(None, None, false)) else Refused(NotAnObject, [])
  }

  /** One pass per field of the request loop, then the checks behind it. */
  function ParseFields(s: string, p: Progress): (r: RequestResult)
    decreases |s|
  {
    if s == [] then Finish(s, p)
    else
      var t := SkipWs(s);
      if StartsWith(t, '}') then Finish(t[1..], p)
      else
        match ParseField(t, p)
        case FieldBad(error, id) => Refused(error, id)
        case FieldRead(p', afterField) =>
          var x := SkipWs(afterField);
          if StartsWith(x, ',') then ParseFields(x[1..], p')
          else if StartsWith(x, '}') then Finish(x[1..], p')
          else if x == [] then Finish(x, p')
          else Refused(ExpectedFieldEnd, IdSoFar(p'))
  }

  datatype FieldResult = FieldRead(progress: Progress, rest: string) | FieldBad(error: RequestError, id: string)

  function ParseField(s: string, p: Progress): (r: FieldResult)
    ensures r.FieldRead? ==> |r.rest| < |s|
  {
    match ScanString(s, Some(KEY_BUFFER))
    case Bad(error, _) => FieldBad(Scanner(error), IdSoFar(p))
    case Read(key, afterKey) =>
      var u := SkipWs(afterKey);
      if !StartsWith(u, ':') then FieldBad(KeyWithoutColon, IdSoFar(p))
      else if CString(key) == "id" then ParseId(u[1..], p)
      else if CString(key) == "cmd" then ParseCmd(u[1..], p)
      else if CString(key) == "payload" then ParsePayload(u[1..], p)
      else FieldBad(UnexpectedField, IdSoFar(p))
  }

  function ParseId(s: string, p: Progress): (r: FieldResult)
    ensures r.FieldRead? ==> |r.rest| < |s|
  {
    if p.id.Some? then FieldBad(DuplicateId, p.id.value)
    else
      match ScanString(s, Some(ID_BUFFER))
      case Bad(error, stored) => FieldBad(Scanner(error), CString(stored))
      case Read(out, rest) => FieldRead(p.(id := Some(CString(out))), rest)
  }

  function ParseCmd(s: string, p: Progress): (r: FieldResult)
    ensures r.FieldRead? ==> |r.rest| < |s|
  {
    if p.cmd.Some? then FieldBad(DuplicateCmd, IdSoFar(p))
    else
      match ScanString(s, Some(CMD_BUFFER))
      case Bad(error, _) => FieldBad(Scanner(error), IdSoFar(p))
      case Read(out, rest) => FieldRead(p.(cmd := Some(CString(out))), rest)
  }

  function ParsePayload(s: string, p: Progress): (r: FieldResult)
    ensures r.FieldRead? ==> |r.rest| < |s|
  {
    if p.payload then FieldBad(DuplicatePayload, IdSoFar(p))
    else
      var t := SkipWs(s);
      match SkipValue(t, 1)
      case Err(error) => FieldBad(Scanner(error), IdSoFar(p))
      case Ok(rest) =>
        if StartsWith(t, '{') then FieldRead(p.(payload := true), rest)
        else FieldBad(PayloadNotObject, IdSoFar(p))
  }

  function Finish(s: string, p: Progress): (r: RequestResult) {
    if SkipWs(s) != [] then Refused(TrailingData, IdSoFar(p))
    else if p.id.None? || p.cmd.None? || !p.payload then Refused(MissingField, IdSoFar(p))
    else Request(p.id.value, p.cmd.value)
  }

  // ----- the grammar of requests -----

  datatype FieldValue = IdText(text: Body) | CmdText(text: Body) | Payload(members: Members)

  datatype Field = Field(key: Body, keyAfter: string, valueBefore: string, value: FieldValue)

  /** What may follow the opening brace; the closing brace may be missing, and a comma may trail. */
  datatype Fields =
    | Closed(before: string, tail: string)
    | Cut
    | LastClosed(before: string, field: Field, after: string, tail: string)
    | LastCut(before: string, field: Field, after: string)
    | More(before: string, field: Field, after: string, rest: Fields)

  function FieldValueOnto(v: FieldValue, rest: string): (s: string) {
    match v
    case IdText(text) => QuotedOnto(text, rest)
    case CmdText(text) => QuotedOnto(text, rest)
    case Payload(members) => ValueOnto(Obj(members), rest)
  }

  function FieldOnto(f: Field, rest: string): (s: string) {
    QuotedOnto(f.key, f.keyAfter + ([':'] + (f.valueBefore + FieldValueOnto(f.value, rest))))
  }

  function FieldsText(fs: Fields): (s: string) {
    match fs
    case Closed(before, tail) => before + (['}'] + tail)
    case Cut => []
    case LastClosed(before, field, after, tail) => before + FieldOnto(field, after + (['}'] + tail))
    case LastCut(before, field, after) => before + FieldOnto(field, after)
    case More(before, field, after, rest) => before + FieldOnto(field, after + ([','] + FieldsText(rest)))
  }

  function KeyName(v: FieldValue): (s: string) {
    match v
    case IdText(_) => "id"
    case CmdText(_) => "cmd"
    case Payload(_) => "payload"
  }

  /** Well formed, within the buffers and within the nesting limit. */
  predicate WfField(f: Field) {
    && WfBody(f.key) && |f.key| < KEY_BUFFER && CString(Decode(f.key)) == KeyName(f.value)
    && Ws(f.keyAfter) && Ws(f.valueBefore)
    && WfFieldValue(f.value)
  }

  predicate WfFieldValue(v: FieldValue) {
    match v
    case IdText(text) => WfBody(text) && |text| < ID_BUFFER
    case CmdText(text) => WfBody(text) && |text| < CMD_BUFFER
    case Payload(members) => WfMembers(members) && WithinNesting(Depth(Obj(members)), 1)
  }

  /** What the id or cmd buffer holds after this field. */
  function Stored(v: FieldValue): (s: string)
    requires WfFieldValue(v) && !v.Payload?
  {
    CString(Decode(v.text))
  }

  predicate WfFields(fs: Fields) {
    match fs
    case Closed(before, tail) => Ws(before) && Ws(tail)
    case Cut => true
    case LastClosed(before, field, after, tail) => Ws(before) && WfField(field) && Ws(after) && Ws(tail)
    case LastCut(before, field, after) => Ws(before) && WfField(field) && Ws(after)
    case More(before, field, after, rest) => Ws(before) && WfField(field) && Ws(after) && WfFields(rest)
  }

  /** The fields of a request, in order. */
  function FieldList(fs: Fields): (xs: seq<Field>) {
    match fs
    case Closed(_, _) => []
    case Cut => []
    case LastClosed(_, field, _, _) => [field]
    case LastCut(_, field, _) => [field]
    case More(_, field, _, rest) => [field] + FieldList(rest)
  }

  /** The id that a field gives, if it gives one. */
  function IdOf(f: Field): (ids: seq<string>)
    requires WfField(f)
  {
    if f.value.IdText? then [Stored(f.value)] else []
  }

  function CmdOf(f: Field): (cmds: seq<string>)
    requires WfField(f)
  {
    if f.value.CmdText? then [Stored(f.value)] else []
  }

  /** All ids that a list of fields gives, as the C buffers will hold them. */
  function Ids(xs: seq<Field>): (ids: seq<string>)
    requires forall i :: 0 <= i < |xs| ==> WfField(xs[i])
  {
    if xs == [] then [] else IdOf(xs[0]) + Ids(xs[1..])
  }

  function Cmds(xs: seq<Field>): (cmds: seq<string>)
    requires forall i :: 0 <= i < |xs| ==> WfField(xs[i])
  {
    if xs == [] then [] else CmdOf(xs[0]) + Cmds(xs[1..])
  }

  function Payloads(xs: seq<Field>): (n: nat) {
    if xs == [] then 0 else (if xs[0].value.Payload? then 1 else 0) + Payloads(xs[1..])
  }

  lemma {:induction false} FieldsAreWf(fs: Fields)
    requires WfFields(fs)
    ensures forall i :: 0 <= i < |FieldList(fs)| ==> WfField(FieldList(fs)[i])
  {
    if fs.More? { FieldsAreWf(fs.rest); }
  }

  function Known(o: Option<string>): (xs: seq<string>) {
    if o.Some? then [o.value] else []
  }

  /** With what is known already, the fields give one id, one cmd and one payload. */
  ghost predicate Completes(p: Progress, xs: seq<Field>, id: string, cmd: string)
    requires forall i :: 0 <= i < |xs| ==> WfField(xs[i])
  {
    && Known(p.id) + Ids(xs) == [id]
    && Known(p.cmd) + Cmds(xs) == [cmd]
    && (if p.payload then 1 else 0) + Payloads(xs) == 1
  }

  // ----- every request of the grammar is accepted with its id and cmd -----

  function After(p: Progress, f: Field): (p': Progress)
    requires WfField(f)
  {
    match f.value
    case IdText(_) => p.(id := Some(Stored(f.value)))
    case CmdText(_) => p.(cmd := Some(Stored(f.value)))
    case Payload(_) => p.(payload := true)
  }

  /** The field is not a repetition. */
  predicate Fresh(p: Progress, f: Field) {
    match f.value
    case IdText(_) => p.id.None?
    case CmdText(_) => p.cmd.None?
    case Payload(_) => !p.payload
  }

  lemma FieldScanned(p: Progress, f: Field, rest: string)
    requires WfField(f)
    ensures ParseField(FieldOnto(f, rest), p).FieldRead? <==> Fresh(p, f)
    ensures Fresh(p, f) ==> ParseField(FieldOnto(f, rest), p) == FieldRead(After(p, f), rest)
  {
    var s := FieldOnto(f, rest);
    var v := FieldValueOnto(f.value, rest);
    var tail := f.valueBefore + v;
    StringScanned([], f.key, f.keyAfter + ([':'] + tail), Some(KEY_BUFFER));
    assert [] + s == s;
    WsSkipped(f.keyAfter, [':'] + tail);
    assert ([':'] + tail)[1..] == tail;
    match f.value
    case IdText(text) => StringScanned(f.valueBefore, text, rest, Some(ID_BUFFER));
    case CmdText(text) => StringScanned(f.valueBefore, text, rest, Some(CMD_BUFFER));
    case Payload(members) =>
      WsSkipped(f.valueBefore, v);
      ValueScanned([], Obj(members), rest, 1);
      assert [] + v == v;
  }

  lemma CompletesStep(p: Progress, f: Field, xs: seq<Field>, id: string, cmd: string)
    requires WfField(f) && forall i :: 0 <= i < |xs| ==> WfField(xs[i])
    ensures Completes(p, [f] + xs, id, cmd) <==> Fresh(p, f) && Completes(After(p, f), xs, id, cmd)
  {
    FieldAndOthers(f, xs);
    OneOnly(Known(p.id), IdOf(f), Ids(xs), id);
    OneOnly(Known(p.cmd), CmdOf(f), Cmds(xs), cmd);
    match f.value
    case IdText(_) => assert Known(After(p, f).id) == IdOf(f);
    case CmdText(_) => assert Known(After(p, f).cmd) == CmdOf(f);
    case Payload(_) =>
  }

  /** One more string between what is known and what follows makes a single string only if nothing was known. */
  lemma OneOnly(known: seq<string>, x: seq<string>, more: seq<string>, id: string)
    ensures x == [] ==> known + (x + more) == known + more
    ensures x != [] ==> (known + (x + more) == [id] <==> known == [] && x + more == [id])
  {
    if x != [] && known + (x + more) == [id] {
      assert |known + (x + more)| == 1;
      assert known + (x + more) == x + more;
    }
    if known == [] {
      assert known + (x + more) == x + more;
    }
  }

  lemma FieldAndOthers(f: Field, xs: seq<Field>)
    requires WfField(f) && forall i :: 0 <= i < |xs| ==> WfField(xs[i])
    ensures Ids([f] + xs) == IdOf(f) + Ids(xs) && Cmds([f] + xs) == CmdOf(f) + Cmds(xs)
    ensures Payloads([f] + xs) == (if f.value.Payload? then 1 else 0) + Payloads(xs)
  {
    assert ([f] + xs)[1..] == xs;
  }

  lemma CompletesNone(p: Progress, id: string, cmd: string)
    ensures Completes(p, [], id, cmd) <==> p == Progress(Some(id), Some(cmd), true)
  {
    assert Known(p.id) + [] == Known(p.id);
    assert Known(p.cmd) + [] == Known(p.cmd);
  }

  lemma FinishScanned(w: string, p: Progress, id: string, cmd: string)
    requires Ws(w)
    ensures Finish(w, p) == Request(id, cmd) <==> Completes(p, [], id, cmd)
  {
    WsSkipped(w, []);
    assert w + [] == w;
    CompletesNone(p, id, cmd);
  }

  lemma FieldStep(before: string, f: Field, after: string, follow: string, p: Progress)
    requires Ws(before) && WfField(f) && Ws(after)
    requires follow == [] || !IsWs(follow[0])
    ensures var s := before + FieldOnto(f, after + follow);
            && s != [] && !StartsWith(SkipWs(s), '}')
            && (ParseField(SkipWs(s), p).FieldRead? <==> Fresh(p, f))
            && (Fresh(p, f) ==> ParseField(SkipWs(s), p) == FieldRead(After(p, f), after + follow))
            && SkipWs(after + follow) == follow
  {
    WsSkipped(before, FieldOnto(f, after + follow));
    FieldScanned(p, f, after + follow);
    WsSkipped(after, follow);
  }

  /** A text of the grammar is accepted exactly when it completes what is known, with the id and cmd it spells. */
  lemma {:induction false} FieldsScanned(fs: Fields, p: Progress, id: string, cmd: string)
    requires WfFields(fs)
    ensures forall i :: 0 <= i < |FieldList(fs)| ==> WfField(FieldList(fs)[i])
    ensures ParseFields(FieldsText(fs), p) == Request(id, cmd) <==> Completes(p, FieldList(fs), id, cmd)
    decreases fs
  {
    FieldsAreWf(fs);
    match fs
    case Closed(before, tail) =>
      WsSkipped(before, ['}'] + tail);
      assert (['}'] + tail)[1..] == tail;
      FinishScanned(tail, p, id, cmd);
    case Cut =>
      FinishScanned([], p, id, cmd);
    case LastClosed(before, f, after, tail) =>
      FieldStep(before, f, after, ['}'] + tail, p);
      assert (['}'] + tail)[1..] == tail;
      assert [f] == [f] + [];
      CompletesStep(p, f, [], id, cmd);
      if Fresh(p, f) { FinishScanned(tail, After(p, f), id, cmd); }
    case LastCut(before, f, after) =>
      FieldStep(before, f, after, [], p);
      assert after + [] == after && [f] == [f] + [];
      CompletesStep(p, f, [], id, cmd);
      if Fresh(p, f) { FinishScanned([], After(p, f), id, cmd); }
    case More(before, f, after, rest) =>
      FieldStep(before, f, after, [','] + FieldsText(rest), p);
      assert ([','] + FieldsText(rest))[1..] == FieldsText(rest);
      FieldsAreWf(rest);
      CompletesStep(p, f, FieldList(rest), id, cmd);
      if Fresh(p, f) { FieldsScanned(rest, After(p, f), id, cmd); }
  }

  // ----- what a well-formed request is refused for -----

  function Repetition(v: FieldValue): (e: RequestError) {
    match v
    case IdText(_) => DuplicateId
    case CmdText(_) => DuplicateCmd
    case Payload(_) => DuplicatePayload
  }

  /** Fields in order: the first repetition is refused, with the id so far, and a field that is missing at the end. */
  function Judged(p: Progress, xs: seq<Field>): (r: RequestResult)
    requires forall i :: 0 <= i < |xs| ==> WfField(xs[i])
    decreases |xs|
  {
    if xs == [] then
      if p.id.Some? && p.cmd.Some? && p.payload then Request(p.id.value, p.cmd.value)
      else Refused(MissingField, IdSoFar(p))
    else if Fresh(p, xs[0]) then Judged(After(p, xs[0]), xs[1..])
    else Refused(Repetition(xs[0].value), IdSoFar(p))
  }

  lemma RepetitionRefused(p: Progress, f: Field, rest: string)
    requires WfField(f) && !Fresh(p, f)
    ensures ParseField(FieldOnto(f, rest), p) == FieldBad(Repetition(f.value), IdSoFar(p))
  {
    var s := FieldOnto(f, rest);
    var tail := f.valueBefore + FieldValueOnto(f.value, rest);
    StringScanned([], f.key, f.keyAfter + ([':'] + tail), Some(KEY_BUFFER));
    assert [] + s == s;
    WsSkipped(f.keyAfter, [':'] + tail);
  }

  lemma JudgedEnd(w: string, p: Progress)
    requires Ws(w)
    ensures Finish(w, p) == Judged(p, [])
  {
    WsSkipped(w, []);
    assert w + [] == w;
  }

  lemma OneJudged(before: string, f: Field, after: string, follow: string, p: Progress)
    requires Ws(before) && WfField(f) && Ws(after) && (follow == [] || !IsWs(follow[0]))
    ensures !Fresh(p, f) ==>
              ParseFields(before + FieldOnto(f, after + follow), p) == Refused(Repetition(f.value), IdSoFar(p))
  {
    FieldStep(before, f, after, follow, p);
    WsSkipped(before, FieldOnto(f, after + follow));
    if !Fresh(p, f) {
      RepetitionRefused(p, f, after + follow);
    }
  }

  /** A text of the grammar is accepted, or refused for the reason, that its list of fields gives. */
  lemma {:induction false} FieldsJudged(fs: Fields, p: Progress)
    requires WfFields(fs)
    ensures forall i :: 0 <= i < |FieldList(fs)| ==> WfField(FieldList(fs)[i])
    ensures ParseFields(FieldsText(fs), p) == Judged(p, FieldList(fs))
    decreases fs
  {
    FieldsAreWf(fs);
    match fs
    case Closed(before, tail) =>
      WsSkipped(before, ['}'] + tail);
      assert (['}'] + tail)[1..] == tail;
      JudgedEnd(tail, p);
    case Cut => JudgedEnd([], p);
    case LastClosed(before, f, after, tail) =>
      FieldStep(before, f, after, ['}'] + tail, p);
      OneJudged(before, f, after, ['}'] + tail, p);
      assert (['}'] + tail)[1..] == tail && [f][1..] == [];
      if Fresh(p, f) { JudgedEnd(tail, After(p, f)); }
    case LastCut(before, f, after) =>
      FieldStep(before, f, after, [], p);
      OneJudged(before, f, after, [], p);
      assert after + [] == after && [f][1..] == [];
      if Fresh(p, f) { JudgedEnd([], After(p, f)); }
    case More(before, f, after, rest) =>
      FieldStep(before, f, after, [','] + FieldsText(rest), p);
      OneJudged(before, f, after, [','] + FieldsText(rest), p);
      assert ([','] + FieldsText(rest))[1..] == FieldsText(rest);
      assert ([f] + FieldList(rest))[1..] == FieldList(rest);
      if Fresh(p, f) { FieldsJudged(rest, After(p, f)); }
  }

  /** A text that does not start with a brace is no object; behind a closed request only white space may follow. */
  lemma OuterRefusals(w: string, s: string, before: string, rest: string, p: Progress)
    requires Ws(w) && s != [] && !IsWs(s[0]) && s[0] != '{'
    requires Ws(before) && rest != [] && !IsWs(rest[0])
    ensures ParseRequest(w + s) == Refused(NotAnObject, []) && ParseRequest(w) == Refused(NotAnObject, [])
    ensures ParseFields(before + (['}'] + rest), p) == Refused(TrailingData, IdSoFar(p))
  {
    WsSkipped(w, s);
    WsSkipped(w, []);
    assert w + [] == w;
    WsSkipped(before, ['}'] + rest);
    assert (['}'] + rest)[1..] == rest;
  }

  // ----- every accepted text is a request of the grammar -----

  lemma FieldReadBack(s: string, p: Progress) returns (f: Field)
    requires SkipWs(s) == s && ParseField(s, p).FieldRead?
    ensures WfField(f) && s == FieldOnto(f, ParseField(s, p).rest)
  {
    var w, key := StringRead(s, Some(KEY_BUFFER));
    var a := ScanString(s, Some(KEY_BUFFER)).rest;
    assert w == [] && [] + QuotedOnto(key, a) == QuotedOnto(key, a);
    var keyAfter := WsRead(a);
    var u := SkipWs(a);
    assert u == [':'] + u[1..];
    var valueBefore, value := FieldValueRead(u[1..], p, CString(Decode(key)), ParseField(s, p).rest);
    f := Field(key, keyAfter, valueBefore, value);
  }

  lemma FieldValueRead(s: string, p: Progress, key: string, rest: string) returns (w: string, v: FieldValue)
    requires key == "id" || key == "cmd" || key == "payload"
    requires key == "id" ==> ParseId(s, p).FieldRead? && rest == ParseId(s, p).rest
    requires key == "cmd" ==> ParseCmd(s, p).FieldRead? && rest == ParseCmd(s, p).rest
    requires key == "payload" ==> ParsePayload(s, p).FieldRead? && rest == ParsePayload(s, p).rest
    ensures Ws(w) && s == w + FieldValueOnto(v, rest) && KeyName(v) == key
    ensures WfFieldValue(v)
  {
    if key == "payload" {
      w := WsRead(s);
      var t := SkipWs(s);
      var w', value := ValueRead(t, 1);
      ValueScanned(w', value, rest, 1);
      assert w' == [] && [] + ValueOnto(value, rest) == ValueOnto(value, rest);
      v := Payload(value.members);
    } else {
      var w', b := StringRead(s, Some(if key == "id" then ID_BUFFER else CMD_BUFFER));
      w, v := w', if key == "id" then IdText(b) else CmdText(b);
    }
  }

  lemma {:induction false} FieldsRead(s: string, p: Progress) returns (fs: Fields)
    requires ParseFields(s, p).Request?
    ensures WfFields(fs) && s == FieldsText(fs)
    decreases |s|
  {
    if s == [] {
      fs := Cut;
      return;
    }
    var before := WsRead(s);
    var t := SkipWs(s);
    if StartsWith(t, '}') {
      assert t == ['}'] + t[1..];
      FinishTail(t[1..], p);
      fs := Closed(before, t[1..]);
      return;
    }
    var f := FieldReadBack(t, p);
    var r := ParseField(t, p);
    var after := WsRead(r.rest);
    var x := SkipWs(r.rest);
    if x == [] {
      assert after + [] == after;
      fs := LastCut(before, f, after);
      return;
    }
    assert x == [x[0]] + x[1..];
    if StartsWith(x, ',') {
      var more := FieldsRead(x[1..], r.progress);
      fs := More(before, f, after, more);
    } else {
      FinishTail(x[1..], r.progress);
      fs := LastClosed(before, f, after, x[1..]);
    }
  }

  lemma FinishTail(s: string, p: Progress)
    requires Finish(s, p).Request?
    ensures Ws(s)
  {
    var w := WsRead(s);
    assert w + [] == w;
  }

  // ----- the language -----

  const NOTHING_YET := Progress(None, None, false)

  /** `s` is a request of the grammar whose only id, cmd and payload are these. */
  ghost predicate RequestText(s: string, w: string, fs: Fields, id: string, cmd: string) {
    && Ws(w) && WfFields(fs) && s == w + (['{'] + FieldsText(fs))
    && (forall i :: 0 <= i < |FieldList(fs)| ==> WfField(FieldList(fs)[i]))
    && Ids(FieldList(fs)) == [id] && Cmds(FieldList(fs)) == [cmd] && Payloads(FieldList(fs)) == 1
  }

  lemma CompletesFromNothing(xs: seq<Field>, id: string, cmd: string)
    requires forall i :: 0 <= i < |xs| ==> WfField(xs[i])
    ensures Completes(NOTHING_YET, xs, id, cmd) <==> Ids(xs) == [id] && Cmds(xs) == [cmd] && Payloads(xs) == 1
  {
    assert [] + Ids(xs) == Ids(xs) && [] + Cmds(xs) == Cmds(xs);
  }

  /** The parser accepts a text with an id and a cmd exactly when the text is a request that spells them. */
  lemma RequestLanguage(s: string, id: string, cmd: string)
    ensures ParseRequest(s) == Request(id, cmd) <==> exists w, fs :: RequestText(s, w, fs, id, cmd)
  {
    if ParseRequest(s) == Request(id, cmd) {
      var w := WsRead(s);
      var t := SkipWs(s);
      assert t == ['{'] + t[1..];
      var fs := FieldsRead(t[1..], NOTHING_YET);
      FieldsScanned(fs, NOTHING_YET, id, cmd);
      CompletesFromNothing(FieldList(fs), id, cmd);
      assert RequestText(s, w, fs, id, cmd);
    }
    if w, fs :| RequestText(s, w, fs, id, cmd) {
      var t := ['{'] + FieldsText(fs);
      WsSkipped(w, t);
      assert t[1..] == FieldsText(fs);
      FieldsScanned(fs, NOTHING_YET, id, cmd);
      CompletesFromNothing(FieldList(fs), id, cmd);
    }
  }

  /** The three fields in any order, closed and without a trailing comma, are accepted with their id and cmd. */
  lemma AnyFieldOrder(w: string, f: seq<Field>, before: seq<string>, after: seq<string>, tail: string, id: string,
                      cmd: string)
    requires |f| == |before| == |after| == 3 && Ws(w) && Ws(tail)
    requires forall i :: 0 <= i < 3 ==> WfField(f[i]) && Ws(before[i]) && Ws(after[i])
    requires multiset{KeyName(f[0].value), KeyName(f[1].value), KeyName(f[2].value)} == multiset{"id", "cmd", "payload"}
    requires forall i :: 0 <= i < 3 ==> IdOf(f[i]) <= [id] && CmdOf(f[i]) <= [cmd]
    ensures var s := w + (['{'] + FieldsText(More(before[0], f[0], after[0],
                              More(before[1], f[1], after[1], LastClosed(before[2], f[2], after[2], tail)))));
            ParseRequest(s) == Request(id, cmd)
  {
    var fs := More(before[0], f[0], after[0], More(before[1], f[1], after[1],
                                                   LastClosed(before[2], f[2], after[2], tail)));
    var s := w + (['{'] + FieldsText(fs));
    assert WfField(f[0]) && WfField(f[1]) && WfField(f[2]);
    assert FieldList(fs) == [f[0], f[1], f[2]] by {
      assert FieldList(fs.rest.rest) == [f[2]] && FieldList(fs.rest) == [f[1], f[2]];
    }
    ThreeFields(f[0], f[1], f[2], id, cmd);
    assert RequestText(s, w, fs, id, cmd);
    RequestLanguage(s, id, cmd);
  }

  /** Three fields with three different keys hold one id, one cmd and one payload. */
  lemma ThreeFields(a: Field, b: Field, c: Field, id: string, cmd: string)
    requires WfField(a) && WfField(b) && WfField(c)
    requires multiset{KeyName(a.value), KeyName(b.value), KeyName(c.value)} == multiset{"id", "cmd", "payload"}
    requires IdOf(a) <= [id] && IdOf(b) <= [id] && IdOf(c) <= [id]
    requires CmdOf(a) <= [cmd] && CmdOf(b) <= [cmd] && CmdOf(c) <= [cmd]
    ensures Ids([a, b, c]) == [id] && Cmds([a, b, c]) == [cmd] && Payloads([a, b, c]) == 1
  {
    KindCounts(a, b, c);
    FieldAndOthers(c, []);
    FieldAndOthers(b, [c]);
    FieldAndOthers(a, [b, c]);
    assert [c] + [] == [c] && [b] + [c] == [b, c] && [a] + [b, c] == [a, b, c];
    OneValue(IdOf(a), IdOf(b), IdOf(c), id);
    OneValue(CmdOf(a), CmdOf(b), CmdOf(c), cmd);
  }

  /** Of three lists with at most this value, one holds it and the others nothing. */
  lemma OneValue(x: seq<string>, y: seq<string>, z: seq<string>, v: string)
    requires x <= [v] && y <= [v] && z <= [v] && |x| + |y| + |z| == 1
    ensures x + (y + (z + [])) == [v]
  {
  }

  function One(yes: bool): (n: nat) {
    if yes then 1 else 0
  }

  /** Each kind of field occurs once. */
  lemma KindCounts(a: Field, b: Field, c: Field)
    requires WfField(a) && WfField(b) && WfField(c)
    requires multiset{KeyName(a.value), KeyName(b.value), KeyName(c.value)} == multiset{"id", "cmd", "payload"}
    ensures |IdOf(a)| + |IdOf(b)| + |IdOf(c)| == 1 && |CmdOf(a)| + |CmdOf(b)| + |CmdOf(c)| == 1
    ensures One(a.value.Payload?) + One(b.value.Payload?) + One(c.value.Payload?) == 1
  {
    OneOfEach(a, b, c);
  }

  lemma OneOfEach(a: Field, b: Field, c: Field)
    requires multiset{KeyName(a.value), KeyName(b.value), KeyName(c.value)} == multiset{"id", "cmd", "payload"}
    ensures KeyName(a.value) != KeyName(b.value) && KeyName(b.value) != KeyName(c.value)
    ensures KeyName(a.value) != KeyName(c.value)
  {
    var all := multiset{KeyName(a.value), KeyName(b.value), KeyName(c.value)};
    assert "id" != "cmd" && "cmd" != "payload" && "id" != "payload";
    assert all["id"] == 1 && all["cmd"] == 1 && all["payload"] == 1;
  }

  // ----- leaving out the last brace -----

  predicate HasBrace(fs: Fields) {
    match fs
    case Closed(_, _) => true
    case LastClosed(_, _, _, _) => true
    case More(_, _, _, rest) => HasBrace(rest)
    case _ => false
  }

  /** The text of the fields without the brace that closes them. */
  function WithoutBrace(fs: Fields): (s: string)
    requires HasBrace(fs)
  {
    match fs
    case Closed(before, tail) => before + tail
    case LastClosed(before, f, after, tail) => before + FieldOnto(f, after + tail)
    case More(before, f, after, rest) => before + FieldOnto(f, after + ([','] + WithoutBrace(rest)))
  }

  /** The brace follows a comma, and there is white space in front of it or behind it. */
  predicate BlankAfterComma(fs: Fields) {
    match fs
    case Closed(before, tail) => before + tail != []
    case More(_, _, _, rest) => BlankAfterComma(rest)
    case _ => false
  }

  lemma FieldOntoIsConcat(f: Field, rest: string)
    requires WfField(f)
    ensures FieldOnto(f, rest) == FieldOnto(f, []) + rest
  {
    var v := f.value;
    var head := f.keyAfter + ([':'] + (f.valueBefore + FieldValueOnto(v, [])));
    match v {
      case IdText(text) => QuotedOntoIsConcat(text, rest);
      case CmdText(text) => QuotedOntoIsConcat(text, rest);
      case Payload(members) => ValueOntoIsConcat(Obj(members), rest);
    }
    assert f.keyAfter + ([':'] + (f.valueBefore + (FieldValueOnto(v, []) + rest))) == head + rest;
    QuotedAppended(f.key, head, rest);
  }

  lemma QuotedAppended(b: Body, head: string, rest: string)
    ensures QuotedOnto(b, head + rest) == QuotedOnto(b, head) + rest
  {
    BodyOntoIsConcat(b, ['\"'] + (head + rest));
    BodyOntoIsConcat(b, ['\"'] + head);
    assert ['\"'] + (head + rest) == (['\"'] + head) + rest;
  }

  lemma MoveOut(x: string, y: string, z: string, rest: string)
    ensures x + (y + (z + rest)) == (x + (y + z)) + rest
  {
  }

  /** What is dropped is one closing brace with nothing but white space behind it. */
  lemma {:induction false} OnlyBraceDropped(fs: Fields) returns (a: string, b: string)
    requires WfFields(fs) && HasBrace(fs)
    ensures FieldsText(fs) == a + (['}'] + b) && WithoutBrace(fs) == a + b && Ws(b)
    decreases fs
  {
    match fs
    case Closed(before, tail) => a, b := before, tail;
    case LastClosed(before, f, after, tail) =>
      FieldOntoIsConcat(f, after + (['}'] + tail));
      FieldOntoIsConcat(f, after + tail);
      MoveOut(before, FieldOnto(f, []), after, ['}'] + tail);
      MoveOut(before, FieldOnto(f, []), after, tail);
      a, b := before + (FieldOnto(f, []) + after), tail;
    case More(before, f, after, rest) =>
      var c;
      c, b := OnlyBraceDropped(rest);
      a := before + (FieldOnto(f, []) + (after + ([','] + c)));
      MoreBraceDropped(before, f, after, FieldsText(rest), c, ['}'] + b);
      MoreBraceDropped(before, f, after, WithoutBrace(rest), c, b);
  }

  lemma MoreBraceDropped(before: string, f: Field, after: string, s: string, c: string, rest: string)
    requires WfField(f) && s == c + rest
    ensures before + FieldOnto(f, after + ([','] + s)) == (before + (FieldOnto(f, []) + (after + ([','] + c)))) + rest
  {
    FieldOntoIsConcat(f, after + ([','] + s));
    MoveOut(after, [','], c, rest);
    MoveOut(before, FieldOnto(f, []), after + ([','] + c), rest);
  }

  /** Fields without their brace complete what is known exactly as with it, unless white space follows a comma. */
  lemma {:induction false} WithoutBraceScanned(fs: Fields, p: Progress, id: string, cmd: string)
    requires WfFields(fs) && HasBrace(fs)
    ensures forall i :: 0 <= i < |FieldList(fs)| ==> WfField(FieldList(fs)[i])
    ensures ParseFields(WithoutBrace(fs), p) == Request(id, cmd)
       <==> Completes(p, FieldList(fs), id, cmd) && !BlankAfterComma(fs)
    decreases fs
  {
    FieldsAreWf(fs);
    match fs
    case Closed(before, tail) => BlankScanned(before + tail, p, id, cmd);
    case LastClosed(before, f, after, tail) =>
      FieldsScanned(LastCut(before, f, after + tail), p, id, cmd);
    case More(before, f, after, rest) =>
      FieldStep(before, f, after, [','] + WithoutBrace(rest), p);
      assert ([','] + WithoutBrace(rest))[1..] == WithoutBrace(rest);
      FieldsAreWf(rest);
      CompletesStep(p, f, FieldList(rest), id, cmd);
      if Fresh(p, f) { WithoutBraceScanned(rest, After(p, f), id, cmd); }
  }

  /** White space where a field or a brace is expected is refused; the end of the text is not. */
  lemma BlankScanned(s: string, p: Progress, id: string, cmd: string)
    requires Ws(s)
    ensures ParseFields(s, p) == Request(id, cmd) <==> Completes(p, [], id, cmd) && s == []
  {
    WsSkipped(s, []);
    assert s + [] == s;
    FinishScanned([], p, id, cmd);
  }

  /**
   An accepted request stays accepted, with the same id and cmd, without its last brace exactly when dropping it
   leaves no white space behind a comma.
   */
  lemma FinalBraceOptional(w: string, fs: Fields, id: string, cmd: string)
    requires HasBrace(fs) && RequestText(w + (['{'] + FieldsText(fs)), w, fs, id, cmd)
    ensures var r := ParseRequest(w + (['{'] + WithoutBrace(fs)));
            (r == Request(id, cmd) <==> !BlankAfterComma(fs)) && (r.Refused? <==> BlankAfterComma(fs))
  {
    var t := ['{'] + WithoutBrace(fs);
    WsSkipped(w, t);
    assert t[1..] == WithoutBrace(fs);
    WithoutBraceScanned(fs, NOTHING_YET, id, cmd);
    CompletesFromNothing(FieldList(fs), id, cmd);
    var r := ParseFields(WithoutBrace(fs), NOTHING_YET);
    if r.Request? {
      WithoutBraceScanned(fs, NOTHING_YET, r.id, r.cmd);
    }
  }

  /** The body that spells a string without escapes. */
  function Raws(s: string): (b: Body) {
    seq(|s|, i requires 0 <= i < |s| => Raw(s[i]))
  }

  lemma {:induction false} RawsSpell(s: string, rest: string)
    ensures BodyOnto(Raws(s), rest) == s + rest
    ensures (forall i :: 0 <= i < |s| ==> s[i] != '\0') ==> CString(s) == s
  {
    if s != [] {
      RawsSpell(s[1..], rest);
      assert Raws(s)[1..] == Raws(s[1..]);
      assert s == [s[0]] + s[1..];
    } else {
      assert [] + rest == rest;
    }
  }

  predicate PlainText(s: string) {
    forall i :: 0 <= i < |s| ==> 'a' <= s[i] <= 'z'
  }

  lemma RawsMean(s: string)
    requires PlainText(s)
    ensures WfBody(Raws(s)) && Decode(Raws(s)) == s && CString(s) == s
  {
    RawsSpell(s, []);
  }

  lemma PlainFieldText(key: string, v: FieldValue, text: string, rest: string)
    requires FieldValueOnto(v, rest) == text + rest
    ensures FieldOnto(Field(Raws(key), [], [], v), rest) == ("\"" + key + "\":" + text) + rest
  {
    RawsSpell(key, ['\"'] + ([':'] + (text + rest)));
    assert [] + ([':'] + ([] + (text + rest))) == [':'] + (text + rest);
  }

  lemma PlainQuoted(s: string, rest: string)
    ensures QuotedOnto(Raws(s), rest) == ("\"" + s + "\"") + rest
  {
    RawsSpell(s, ['\"'] + rest);
  }

  lemma FieldThenComma(f: Field, rest: Fields)
    ensures FieldsText(More([], f, [], rest)) == FieldOnto(f, [','] + FieldsText(rest))
    ensures HasBrace(rest) ==> WithoutBrace(More([], f, [], rest)) == FieldOnto(f, [','] + WithoutBrace(rest))
  {
    var x := [','] + FieldsText(rest);
    assert [] + x == x;
    assert [] + FieldOnto(f, x) == FieldOnto(f, x);
    if HasBrace(rest) {
      var y := [','] + WithoutBrace(rest);
      assert [] + y == y;
      assert [] + FieldOnto(f, y) == FieldOnto(f, y);
    }
  }

  /** Three fields, each followed by a comma, and then a blank and the closing brace. */
  function Trailing(a: Field, b: Field, c: Field): (fs: Fields)
    ensures HasBrace(fs) && BlankAfterComma(fs) && FieldList(fs) == [a, b, c]
    ensures WfField(a) && WfField(b) && WfField(c) ==> WfFields(fs)
  {
    var third := More([], c, [], Closed(" ", []));
    var second := More([], b, [], third);
    assert FieldList(third) == [c] + FieldList(third.rest) && FieldList(third.rest) == [];
    assert [c] + [] == [c];
    assert HasBrace(third) && BlankAfterComma(third);
    assert HasBrace(second) && BlankAfterComma(second) && FieldList(second) == [b] + [c];
    assert WfField(b) && WfField(c) ==> WfFields(third) && WfFields(second);
    More([], a, [], second)
  }

  lemma TrailingText(a: Field, b: Field, c: Field)
    ensures FieldsText(Trailing(a, b, c)) == FieldOnto(a, [','] + FieldOnto(b, [','] + FieldOnto(c, [','] + " }")))
    ensures WithoutBrace(Trailing(a, b, c)) == FieldOnto(a, [','] + FieldOnto(b, [','] + FieldOnto(c, [','] + " ")))
  {
    var end := Closed(" ", []);
    assert FieldsText(end) == " }" && WithoutBrace(end) == " ";
    FieldThenComma(c, end);
    FieldThenComma(b, More([], c, [], end));
    FieldThenComma(a, More([], b, [], More([], c, [], end)));
  }

  /** Such a request is accepted, and refused without its brace. */
  lemma TrailingNeedsBrace(a: Field, b: Field, c: Field, id: string, cmd: string)
    requires WfField(a) && WfField(b) && WfField(c) && a.value.IdText? && b.value.CmdText? && c.value.Payload?
    requires IdOf(a) == [id] && CmdOf(b) == [cmd]
    ensures ParseRequest(['{'] + FieldsText(Trailing(a, b, c))) == Request(id, cmd)
    ensures ParseRequest(['{'] + WithoutBrace(Trailing(a, b, c))).Refused?
  {
    var fs := Trailing(a, b, c);
    var s, t := ['{'] + FieldsText(fs), ['{'] + WithoutBrace(fs);
    assert [] + s == s && [] + t == t;
    ThreeInOrder(a, b, c);
    assert RequestText(s, [], fs, id, cmd);
    RequestLanguage(s, id, cmd);
    FinalBraceOptional([], fs, id, cmd);
  }

  lemma ThreeInOrder(a: Field, b: Field, c: Field)
    requires WfField(a) && WfField(b) && WfField(c) && a.value.IdText? && b.value.CmdText? && c.value.Payload?
    ensures Ids([a, b, c]) == IdOf(a) && Cmds([a, b, c]) == CmdOf(b) && Payloads([a, b, c]) == 1
  {
    var three, two, one := [a, b, c], [b, c], [c];
    assert three[1..] == two && two[1..] == one && one[1..] == [];
    assert Ids(one) == IdOf(c) + Ids([]) && Ids(two) == IdOf(b) + Ids(one) && Ids(three) == IdOf(a) + Ids(two);
    assert Cmds(one) == CmdOf(c) + Cmds([]) && Cmds(two) == CmdOf(b) + Cmds(one) && Cmds(three) == CmdOf(a) + Cmds(two);
    assert IdOf(a) + [] == IdOf(a) && CmdOf(b) + [] == CmdOf(b) && [] + CmdOf(b) == CmdOf(b);
    assert Payloads(one) == 1 + Payloads([]) && Payloads(two) == Payloads(one);
  }

  lemma PlainKey(key: string, v: FieldValue)
    requires PlainText(key) && |key| < KEY_BUFFER && KeyName(v) == key && WfFieldValue(v)
    ensures WfField(Field(Raws(key), [], [], v))
  {
    RawsMean(key);
  }

  lemma PlainIdField(id: string) returns (f: Field)
    requires PlainText(id) && |id| < ID_BUFFER
    ensures WfField(f) && f.value.IdText? && IdOf(f) == [id]
    ensures FieldOnto(f, []) == ("\"" + "id" + "\":" + ("\"" + id + "\"")) + []
  {
    RawsMean(id);
    var v := IdText(Raws(id));
    PlainKey("id", v);
    PlainQuoted(id, []);
    PlainFieldText("id", v, "\"" + id + "\"", []);
    f := Field(Raws("id"), [], [], v);
  }

  lemma PlainCmdField(cmd: string) returns (f: Field)
    requires PlainText(cmd) && |cmd| < CMD_BUFFER
    ensures WfField(f) && f.value.CmdText? && CmdOf(f) == [cmd]
    ensures FieldOnto(f, []) == ("\"" + "cmd" + "\":" + ("\"" + cmd + "\"")) + []
  {
    RawsMean(cmd);
    var v := CmdText(Raws(cmd));
    PlainKey("cmd", v);
    PlainQuoted(cmd, []);
    PlainFieldText("cmd", v, "\"" + cmd + "\"", []);
    f := Field(Raws("cmd"), [], [], v);
  }

  lemma EmptyPayloadField() returns (f: Field)
    ensures WfField(f) && f.value.Payload? && FieldOnto(f, []) == ("\"" + "payload" + "\":" + "{}") + []
  {
    var v := Payload(MembersEnd([]));
    assert MembersOnto(MembersEnd([]), []) == [] + (['}'] + []) == "}";
    assert FieldValueOnto(v, []) == ['{'] + "}" == "{}" + [];
    PlainKey("payload", v);
    PlainFieldText("payload", v, "{}", []);
    f := Field(Raws("payload"), [], [], v);
  }

  /** The text of three fields, each followed by a comma. */
  lemma ThreeSpelled(a: Field, b: Field, c: Field, x: string, y: string, z: string, end: string)
    requires WfField(a) && WfField(b) && WfField(c)
    requires FieldOnto(a, []) == x && FieldOnto(b, []) == y && FieldOnto(c, []) == z
    ensures ['{'] + FieldOnto(a, [','] + FieldOnto(b, [','] + FieldOnto(c, [','] + end)))
         == (['{'] + x + [','] + y + [','] + z + [',']) + end
  {
    var w := [','] + end;
    FieldOntoIsConcat(c, w);
    var v := [','] + FieldOnto(c, w);
    FieldOntoIsConcat(b, v);
    var u := [','] + FieldOnto(b, v);
    FieldOntoIsConcat(a, u);
  }

  const ID_TEXT := ("\"" + "id" + "\":" + ("\"" + "a" + "\"")) + []
  const CMD_TEXT := ("\"" + "cmd" + "\":" + ("\"" + "ping" + "\"")) + []
  const PAYLOAD_TEXT := ("\"" + "payload" + "\":" + "{}") + []

  /** The request `{"id":"a","cmd":"ping","payload":{}, }` needs its last brace, behind a comma and a blank. */
  lemma BraceNeeded()
    ensures var head := ['{'] + ID_TEXT + [','] + CMD_TEXT + [','] + PAYLOAD_TEXT + [','];
            ParseRequest(head + " }") == Request("a", "ping") && ParseRequest(head + " ").Refused?
  {
    var a := PlainIdField("a");
    var b := PlainCmdField("ping");
    var c := EmptyPayloadField();
    SpelledNeedsBrace(a, b, c, "a", "ping", ID_TEXT, CMD_TEXT, PAYLOAD_TEXT);
  }

  lemma SpelledNeedsBrace(a: Field, b: Field, c: Field, id: string, cmd: string, x: string, y: string, z: string)
    requires WfField(a) && WfField(b) && WfField(c) && a.value.IdText? && b.value.CmdText? && c.value.Payload?
    requires IdOf(a) == [id] && CmdOf(b) == [cmd]
    requires FieldOnto(a, []) == x && FieldOnto(b, []) == y && FieldOnto(c, []) == z
    ensures ParseRequest((['{'] + x + [','] + y + [','] + z + [',']) + " }") == Request(id, cmd)
    ensures ParseRequest((['{'] + x + [','] + y + [','] + z + [',']) + " ").Refused?
  {
    TrailingNeedsBrace(a, b, c, id, cmd);
    TrailingText(a, b, c);
    ThreeSpelled(a, b, c, x, y, z, " }");
    ThreeSpelled(a, b, c, x, y, z, " ");
  }
}
