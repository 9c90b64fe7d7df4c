/**
 The scanner and the request parser as dpdkd/src/json_proto.c runs them: a position moved through the text
 by loops and mutually recursive calls, and fixed output buffers filled byte by byte. Every method is proved
 to compute what the functions of modules JsonScanner and RequestParser say about the unread text.
 */
module JsonCursor {
  import opened JsonGrammar
  import opened JsonScanner
  import opened RequestParser

  /** A call that started at `pos` ended at `end`, with no error or with the first one, as `spec` says. */
  ghost predicate Agrees(json: string, pos: nat, end: nat, error: Option<ScanError>, spec: Scan) {
    match spec
    case Ok(rest) => error.None? && pos < end <= |json| && json[end..] == rest
    case Err(e) => error == Some(e)
  }

  method SkipWsAt(json: string, pos: nat) returns (end: nat)
    requires pos <= |json|
    ensures pos <= end <= |json|
    ensures json[end..] == SkipWs(json[pos..])
  {
    end := pos;
    while end < |json|
      invariant pos <= end <= |json|
      invariant SkipWs(json[end..]) == SkipWs(json[pos..])
    {
      if json[end] != ' ' && json[end] != '\n' && json[end] != '\r' && json[end] != '\t' {
        break;
      }
      Step(json, end);
      end := end + 1;
    }
  }

  ghost function Capacity(buffer: array?<char>): Option<nat> {
    if buffer == null then None else Some(buffer.Length)
  }

  /** The first bytes of the buffer are `out`. */
  ghost predicate Prefix(buffer: array<char>, out: string)
    reads buffer
  {
    |out| < buffer.Length && forall i :: 0 <= i < |out| ==> buffer[i] == out[i]
  }

  predicate NeedsOutput(buffer: array?<char>) {
    buffer != null && buffer.Length > 0
  }

  /** What a string scan leaves behind: the bytes read and a NUL, or the bytes before the error. */
  twostate predicate StringAgrees(json: string, pos: nat, end: nat, new error: Option<ScanError>,
                                  buffer: array?<char>, spec: StringScan)
    reads buffer
  {
    match spec
    case Read(out, rest) =>
      && error.None? && pos < end <= |json| && json[end..] == rest
      && (NeedsOutput(buffer) ==> Prefix(buffer, out) && buffer[|out|] == '\0')
    case Bad(e, stored) =>
      && error == Some(e)
      && (NeedsOutput(buffer) ==>
            Prefix(buffer, stored) && forall i :: |stored| <= i < buffer.Length ==> buffer[i] == old(buffer[i]))
  }

  lemma Step(json: string, pos: nat)
    requires pos < |json|
    ensures json[pos..] != [] && json[pos..][0] == json[pos] && json[pos..][1..] == json[pos + 1..]
    ensures pos + 1 < |json| ==> json[pos..][1] == json[pos + 1] && json[pos..][2..] == json[pos + 2..]
  {
  }

  method ParseStringAt(json: string, pos: nat, buffer: array?<char>)
    returns (error: Option<ScanError>, end: nat)
    requires pos <= |json|
    modifies if buffer == null then {} else {buffer}
    ensures StringAgrees(json, pos, end, error, buffer, ScanString(json[pos..], Capacity(buffer)))
  {
    end := SkipWsAt(json, pos);
    if end >= |json| || json[end] != '\"' {
      return Some(ExpectedString), end;
    }
    Step(json, end);
    error, end := ParseBodyAt(json, end + 1, buffer);
  }

  /** One byte of a string body, with its escape resolved. */
  method ParseCharAt(json: string, pos: nat) returns (error: Option<ScanError>, ch: char, end: nat)
    requires pos < |json| && json[pos] != '\"'
    ensures forall capacity, out ::
              var spec := ScanBody(json[pos..], capacity, out);
              match error
              case Some(e) => spec == Bad(e, out)
              case None =>
                && pos < end <= |json|
                && spec == if Full(capacity, out) then Bad(StringTooLong, out)
                           else ScanBody(json[end..], capacity, out + [ch])
  {
    error, ch, end := None, json[pos], pos;
    Step(json, pos);
    if ch == '\\' {
      end := end + 1;
      if end >= |json| {
        return Some(UnterminatedEscape), ch, end;
      }
      match Unescape(json[end]) {
        case None => return Some(UnsupportedEscape), ch, end;
        case Some(escaped) => ch := escaped;
      }
    }
    end := end + 1;
  }

  method ParseBodyAt(json: string, pos: nat, buffer: array?<char>)
    returns (error: Option<ScanError>, end: nat)
    requires pos <= |json|
    modifies if buffer == null then {} else {buffer}
    ensures StringAgrees(json, pos, end, error, buffer, ScanBody(json[pos..], Capacity(buffer), []))
  {
    var outLen := 0;
    var needsOutput := buffer != null && buffer.Length > 0;
    ghost var out := [];
    end := pos;
    while end < |json|
      invariant pos <= end <= |json|
      invariant ScanBody(json[pos..], Capacity(buffer), []) == ScanBody(json[end..], Capacity(buffer), out)
      invariant needsOutput ==> outLen == |out| && Prefix(buffer, out)
      invariant needsOutput ==> forall i :: |out| <= i < buffer.Length ==> buffer[i] == old(buffer[i])
    {
      if json[end] == '\"' {
        Step(json, end);
        if needsOutput {
          buffer[outLen] := '\0';
        }
        return None, end + 1;
      }
      var ch, next;
      error, ch, next := ParseCharAt(json, end);
      if error.Some? {
        return;
      }
      if needsOutput {
        if outLen + 1 >= buffer.Length {
          return Some(StringTooLong), end;
        }
        buffer[outLen] := ch;
        outLen := outLen + 1;
      }
      out := out + [ch];
      end := next;
    }
    return Some(UnterminatedString), end;
  }

  method SkipDigitsAt(json: string, pos: nat) returns (end: nat)
    requires pos <= |json|
    ensures pos <= end <= |json|
    ensures json[end..] == SkipDigits(json[pos..])
  {
    end := pos;
    while end < |json| && '0' <= json[end] <= '9'
      invariant pos <= end <= |json|
      invariant SkipDigits(json[end..]) == SkipDigits(json[pos..])
    {
      Step(json, end);
      end := end + 1;
    }
  }

  method SkipFractionAt(json: string, pos: nat) returns (end: nat)
    requires pos <= |json|
    ensures pos <= end <= |json| && json[end..] == SkipFraction(json[pos..])
  {
    end := pos;
    if end < |json| && json[end] == '.' {
      Step(json, end);
      end := SkipDigitsAt(json, end + 1);
    }
  }

  method SkipExponentAt(json: string, pos: nat) returns (end: nat)
    requires pos <= |json|
    ensures pos <= end <= |json| && json[end..] == SkipExponent(json[pos..])
  {
    end := pos;
    if end < |json| && (json[end] == 'e' || json[end] == 'E') {
      Step(json, end);
      end := end + 1;
      if end < |json| && (json[end] == '+' || json[end] == '-') {
        Step(json, end);
        end := end + 1;
      }
      end := SkipDigitsAt(json, end);
    }
  }

  method SkipNumberAt(json: string, pos: nat) returns (error: Option<ScanError>, end: nat)
    requires pos < |json|
    ensures Agrees(json, pos, end, error, SkipNumber(json[pos..]))
  {
    end := pos;
    Step(json, pos);
    if json[end] == '-' {
      end := end + 1;
    }
    end := SkipDigitsAt(json, end);
    if end == pos || (end == pos + 1 && json[pos] == '-') {
      return Some(InvalidNumber), end;
    }
    end := SkipFractionAt(json, end);
    end := SkipExponentAt(json, end);
    error := None;
  }

  method SkipLiteralAt(json: string, pos: nat, literal: string) returns (error: Option<ScanError>, end: nat)
    requires pos <= |json| && literal != []
    ensures Agrees(json, pos, end, error, SkipLiteral(json[pos..], literal))
  {
    if pos + |literal| > |json| || json[pos..pos + |literal|] != literal {
      if pos + |literal| <= |json| {
        assert json[pos..][..|literal|] == json[pos..pos + |literal|];
      }
      return Some(InvalidLiteral), pos;
    }
    assert json[pos..][..|literal|] == json[pos..pos + |literal|];
    return None, pos + |literal|;
  }

  method SkipValueAt(json: string, pos: nat, level: nat) returns (error: Option<ScanError>, end: nat)
    requires pos <= |json|
    ensures Agrees(json, pos, end, error, SkipValue(json[pos..], level))
    decreases |json| - pos, 1
  {
    end := SkipWsAt(json, pos);
    if end >= |json| {
      return Some(UnexpectedEnd), end;
    }
    if json[end] == '{' {
      error, end := SkipObjectAt(json, end, level);
    } else if json[end] == '[' {
      error, end := SkipArrayAt(json, end, level);
    } else if json[end] == '\"' {
      error, end := ParseStringAt(json, end, null);
    } else if json[end] == 't' {
      error, end := SkipLiteralAt(json, end, "true");
    } else if json[end] == 'f' {
      error, end := SkipLiteralAt(json, end, "false");
    } else if json[end] == 'n' {
      error, end := SkipLiteralAt(json, end, "null");
    } else if json[end] == '-' || '0' <= json[end] <= '9' {
      error, end := SkipNumberAt(json, end);
    } else {
      error := Some(UnexpectedToken);
    }
  }

  method SkipObjectAt(json: string, pos: nat, level: nat) returns (error: Option<ScanError>, end: nat)
    requires pos <= |json|
    ensures Agrees(json, pos, end, error, SkipObject(json[pos..], level))
    decreases |json| - pos, 0
  {
    if level > MAX_NESTING {
      return Some(NestingTooDeep), pos;
    }
    end := SkipWsAt(json, pos);
    if end >= |json| || json[end] != '{' {
      return Some(ExpectedObject), end;
    }
    Step(json, end);
    end := end + 1;
    var closed := false;
    while end < |json|
      invariant pos < end <= |json|
      invariant SkipMembers(json[end..], level) == SkipObject(json[pos..], level)
    {
      error, closed, end := MemberPassAt(json, end, level);
      if error.Some? || closed {
        return;
      }
    }
    return Some(UnterminatedObject), end;
  }

  /** One pass of the object loop. */
  method MemberPassAt(json: string, pos: nat, level: nat)
    returns (error: Option<ScanError>, closed: bool, end: nat)
    requires pos < |json|
    ensures error.Some? ==> SkipMembers(json[pos..], level) == Err(error.value)
    ensures error.None? ==> pos < end <= |json|
    ensures error.None? && closed ==> SkipMembers(json[pos..], level) == Ok(json[end..])
    ensures error.None? && !closed ==> SkipMembers(json[pos..], level) == SkipMembers(json[end..], level)
    decreases |json| - pos, 2
  {
    error, closed := None, false;
    end := SkipWsAt(json, pos);
    if end < |json| && json[end] == '}' {
      Step(json, end);
      return None, true, end + 1;
    }
    error, end := SkipMemberAt(json, end, level);
    if error.Some? {
      return;
    }
    end := SkipWsAt(json, end);
    if end < |json| && json[end] == ',' {
      Step(json, end);
      return None, false, end + 1;
    }
    if end < |json| && json[end] == '}' {
      Step(json, end);
      return None, true, end + 1;
    }
    return Some(ExpectedMemberEnd), false, end;
  }

  method SkipMemberAt(json: string, pos: nat, level: nat) returns (error: Option<ScanError>, end: nat)
    requires pos <= |json|
    ensures Agrees(json, pos, end, error, SkipMember(json[pos..], level))
    decreases |json| - pos, 0
  {
    error, end := ParseStringAt(json, pos, null);
    if error.Some? {
      return;
    }
    end := SkipWsAt(json, end);
    if end >= |json| || json[end] != ':' {
      return Some(ExpectedColon), end;
    }
    Step(json, end);
    error, end := SkipValueAt(json, end + 1, level + 1);
  }

  method SkipArrayAt(json: string, pos: nat, level: nat) returns (error: Option<ScanError>, end: nat)
    requires pos <= |json|
    ensures Agrees(json, pos, end, error, SkipArray(json[pos..], level))
    decreases |json| - pos, 0
  {
    if level > MAX_NESTING {
      return Some(NestingTooDeep), pos;
    }
    end := SkipWsAt(json, pos);
    if end >= |json| || json[end] != '[' {
      return Some(ExpectedArray), end;
    }
    Step(json, end);
    end := end + 1;
    var closed := false;
    while end < |json|
      invariant pos < end <= |json|
      invariant SkipItems(json[end..], level) == SkipArray(json[pos..], level)
    {
      error, closed, end := ItemPassAt(json, end, level);
      if error.Some? || closed {
        return;
      }
    }
    return Some(UnterminatedArray), end;
  }

  /** One pass of the array loop. */
  method ItemPassAt(json: string, pos: nat, level: nat)
    returns (error: Option<ScanError>, closed: bool, end: nat)
    requires pos < |json|
    ensures error.Some? ==> SkipItems(json[pos..], level) == Err(error.value)
    ensures error.None? ==> pos < end <= |json|
    ensures error.None? && closed ==> SkipItems(json[pos..], level) == Ok(json[end..])
    ensures error.None? && !closed ==> SkipItems(json[pos..], level) == SkipItems(json[end..], level)
    decreases |json| - pos, 2
  {
    error, closed := None, false;
    end := SkipWsAt(json, pos);
    if end < |json| && json[end] == ']' {
      Step(json, end);
      return None, true, end + 1;
    }
    error, end := SkipValueAt(json, end, level + 1);
    if error.Some? {
      return;
    }
    assert SkipItems(json[pos..], level) == ItemEnd(json[end..], level);
    error, closed, end := ItemEndAt(json, end, level);
  }

  /** What the scanner does behind an item, as a function of the unread text. */
  ghost function ItemEnd(s: string, level: nat): Scan {
    var x := SkipWs(s);
    if StartsWith(x, ',') then SkipItems(x[1..], level)
    else if StartsWith(x, ']') then Ok(x[1..])
    else Err(ExpectedItemEnd)
  }

  method ItemEndAt(json: string, pos: nat, ghost level: nat) returns (error: Option<ScanError>, closed: bool, end: nat)
    requires pos <= |json|
    ensures error.Some? ==> ItemEnd(json[pos..], level) == Err(error.value)
    ensures error.None? ==> pos < end <= |json|
    ensures error.None? ==>
              ItemEnd(json[pos..], level) == if closed then Ok(json[end..]) else SkipItems(json[end..], level)
  {
    error, closed := None, false;
    end := SkipWsAt(json, pos);
    if end < |json| && json[end] == ',' {
      Step(json, end);
      return None, false, end + 1;
    }
    if end < |json| && json[end] == ']' {
      Step(json, end);
      return None, true, end + 1;
    }
    return Some(ExpectedItemEnd), false, end;
  }

  // ----- the request parser -----

  lemma {:induction false} CStringEnds(s: string, n: nat)
    requires n < |s| && s[n] == '\0'
    ensures CString(s) == CString(s[..n])
  {
    if n > 0 && s[0] != '\0' {
      assert s[..n][1..] == s[1..][..n - 1];
      CStringEnds(s[1..], n - 1);
    }
  }

  /** The C string in a zero-filled buffer after `out` was stored at its start. */
  lemma BufferCString(buffer: array<char>, out: string)
    requires Prefix(buffer, out) && buffer[|out|] == '\0'
    ensures CString(buffer[..]) == CString(out)
  {
    CStringEnds(buffer[..], |out|);
    assert buffer[..][..|out|] == out;
  }

  method ClearBuffer(buffer: array<char>)
    modifies buffer
    ensures forall i :: 0 <= i < buffer.Length ==> buffer[i] == '\0'
  {
    for i := 0 to buffer.Length
      invariant forall k :: 0 <= k < i ==> buffer[k] == '\0'
    {
      buffer[i] := '\0';
    }
  }

  /** What the flags and the zero-filled buffers of the parser amount to. */
  ghost predicate Tracks(p: Progress, id: array<char>, cmd: array<char>, haveId: bool, haveCmd: bool, havePayload: bool)
    reads id, cmd
  {
    && haveId == p.id.Some? && haveCmd == p.cmd.Some? && havePayload == p.payload
    && CString(id[..]) == IdSoFar(p)
    && (haveCmd ==> CString(cmd[..]) == p.cmd.value)
    && (!haveId ==> forall i :: 0 <= i < id.Length ==> id[i] == '\0')
  }

  method ParseRequestAt(json: string, id: array<char>, cmd: array<char>) returns (error: Option<RequestError>)
    requires id.Length == ID_BUFFER && cmd.Length == CMD_BUFFER && id != cmd
    modifies id, cmd
    ensures RequestAgrees(error, id, cmd, ParseRequest(json))
  {
    ClearBuffer(id);
    ClearBuffer(cmd);
    var haveId, haveCmd, havePayload := false, false, false;
    ghost var p := Progress(None, None, false);
    assert json[0..] == json;
    var pos := SkipWsAt(json, 0);
    if pos >= |json| || json[pos] != '{' {
      return Some(NotAnObject);
    }
    Step(json, pos);
    pos := pos + 1;
    var done := false;
    while pos < |json| && !done
      invariant 0 < pos <= |json|
      invariant Tracks(p, id, cmd, haveId, haveCmd, havePayload)
      invariant ParseRequest(json) == if done then Finish(json[pos..], p) else ParseFields(json[pos..], p)
      decreases |json| - pos, !done
    {
      error, pos, done, haveId, haveCmd, havePayload, p :=
        FieldPassAt(json, pos, p, id, cmd, haveId, haveCmd, havePayload);
      if error.Some? {
        return;
      }
    }
    error := FinishAt(json, pos, p, id, cmd, haveId, haveCmd, havePayload);
  }

  /** One pass of the loop: the closing brace, or a field and what stands behind it. */
  method FieldPassAt(json: string, pos: nat, ghost p: Progress, id: array<char>, cmd: array<char>,
                     haveId: bool, haveCmd: bool, havePayload: bool)
    returns (error: Option<RequestError>, end: nat, done: bool, haveId': bool, haveCmd': bool, havePayload': bool,
             ghost p': Progress)
    requires id.Length == ID_BUFFER && cmd.Length == CMD_BUFFER && id != cmd
    requires 0 < pos < |json| && Tracks(p, id, cmd, haveId, haveCmd, havePayload)
    modifies id, cmd
    ensures error.Some? ==> RequestAgrees(error, id, cmd, ParseFields(json[pos..], p))
    ensures error.None? ==>
              && pos < end <= |json| && Tracks(p', id, cmd, haveId', haveCmd', havePayload')
              && ParseFields(json[pos..], p) == if done then Finish(json[end..], p') else ParseFields(json[end..], p')
  {
    ghost var unread := json[pos..];
    error, done, haveId', haveCmd', havePayload', p' := None, false, haveId, haveCmd, havePayload, p;
    end := SkipWsAt(json, pos);
    if end < |json| && json[end] == '}' {
      Step(json, end);
      end, done := end + 1, true;
      return;
    }
    error, end, haveId', haveCmd', havePayload', p' := FieldAt(json, end, p, id, cmd, haveId, haveCmd, havePayload);
    if error.Some? {
      return;
    }
    assert ParseFields(unread, p) == FieldEnd(json[end..], p');
    error, end, done := FieldEndAt(json, end, p');
  }

  ghost predicate RequestAgrees(error: Option<RequestError>, id: array<char>, cmd: array<char>, spec: RequestResult)
    reads id, cmd
  {
    match spec
    case Request(i, c) => error.None? && CString(id[..]) == i && CString(cmd[..]) == c
    case Refused(e, i) => error == Some(e) && CString(id[..]) == i
  }

  /** What the parser does behind a field, as a function of the unread text. */
  ghost function FieldEnd(s: string, p: Progress): RequestResult {
    var x := SkipWs(s);
    if StartsWith(x, ',') then ParseFields(x[1..], p)
    else if StartsWith(x, '}') then Finish(x[1..], p)
    else if x == [] then Finish(x, p)
    else Refused(ExpectedFieldEnd, IdSoFar(p))
  }

  method FieldEndAt(json: string, pos: nat, ghost p: Progress)
    returns (error: Option<RequestError>, end: nat, done: bool)
    requires pos <= |json|
    ensures pos <= end <= |json|
    ensures error.Some? ==> FieldEnd(json[pos..], p) == Refused(error.value, IdSoFar(p))
    ensures error.None? ==>
              FieldEnd(json[pos..], p) == if done then Finish(json[end..], p) else ParseFields(json[end..], p)
  {
    error, done := None, true;
    end := SkipWsAt(json, pos);
    if end < |json| && json[end] == ',' {
      Step(json, end);
      return None, end + 1, false;
    }
    if end < |json| && json[end] == '}' {
      Step(json, end);
      return None, end + 1, true;
    }
    if end < |json| {
      return Some(ExpectedFieldEnd), end, true;
    }
  }

  method FinishAt(json: string, pos: nat, ghost p: Progress, id: array<char>, cmd: array<char>,
                  haveId: bool, haveCmd: bool, havePayload: bool) returns (error: Option<RequestError>)
    requires pos <= |json| && Tracks(p, id, cmd, haveId, haveCmd, havePayload)
    ensures RequestAgrees(error, id, cmd, Finish(json[pos..], p))
  {
    var end := SkipWsAt(json, pos);
    if end != |json| {
      return Some(TrailingData);
    }
    if !haveId || !haveCmd || !havePayload {
      return Some(MissingField);
    }
    return None;
  }

  ghost predicate FieldAgrees(json: string, pos: nat, end: nat, error: Option<RequestError>, id: array<char>,
                              spec: FieldResult)
    reads id
  {
    match spec
    case FieldRead(_, rest) => error.None? && pos < end <= |json| && json[end..] == rest
    case FieldBad(e, i) => error == Some(e) && CString(id[..]) == i
  }

  /** The parser's dispatch on a key, as a function of the text behind the colon. */
  ghost function KeyedValue(key: string, s: string, p: Progress): FieldResult {
    if key == "id" then ParseId(s, p)
    else if key == "cmd" then ParseCmd(s, p)
    else if key == "payload" then ParsePayload(s, p)
    else FieldBad(UnexpectedField, IdSoFar(p))
  }

  method KeyAt(json: string, pos: nat, ghost p: Progress)
    returns (error: Option<RequestError>, key: string, end: nat)
    requires pos <= |json|
    ensures error.Some? ==> ParseField(json[pos..], p) == FieldBad(error.value, IdSoFar(p))
    ensures error.None? ==>
              pos < end <= |json| && ParseField(json[pos..], p) == KeyedValue(key, json[end..], p)
  {
    key := [];
    var buffer := new char[KEY_BUFFER];
    var scanError;
    scanError, end := ParseStringAt(json, pos, buffer);
    if scanError.Some? {
      return Some(Scanner(scanError.value)), key, end;
    }
    BufferCString(buffer, ScanString(json[pos..], Some(KEY_BUFFER)).out);
    key := CString(buffer[..]);
    end := SkipWsAt(json, end);
    if end >= |json| || json[end] != ':' {
      return Some(KeyWithoutColon), key, end;
    }
    Step(json, end);
    return None, key, end + 1;
  }

  /** One key, colon and value of the request loop. */
  method FieldAt(json: string, pos: nat, ghost p: Progress, id: array<char>, cmd: array<char>,
                 haveId: bool, haveCmd: bool, havePayload: bool)
    returns (error: Option<RequestError>, end: nat, haveId': bool, haveCmd': bool, havePayload': bool,
             ghost p': Progress)
    requires pos <= |json| && id.Length == ID_BUFFER && cmd.Length == CMD_BUFFER && id != cmd
    requires Tracks(p, id, cmd, haveId, haveCmd, havePayload)
    modifies id, cmd
    ensures FieldAgrees(json, pos, end, error, id, ParseField(json[pos..], p))
    ensures error.None? ==>
              p' == ParseField(json[pos..], p).progress && Tracks(p', id, cmd, haveId', haveCmd', havePayload')
  {
    haveId', haveCmd', havePayload', p' := haveId, haveCmd, havePayload, p;
    var key;
    error, key, end := KeyAt(json, pos, p);
    if error.Some? {
      return;
    }
    if key == "id" {
      p' := (match ParseId(json[end..], p) case FieldRead(q, _) => q case _ => p);
      error, end := IdAt(json, end, p, id, haveId);
      haveId' := true;
    } else if key == "cmd" {
      p' := (match ParseCmd(json[end..], p) case FieldRead(q, _) => q case _ => p);
      error, end := CmdAt(json, end, p, id, cmd, haveCmd);
      haveCmd' := true;
    } else if key == "payload" {
      error, end := PayloadAt(json, end, p, id, havePayload);
      havePayload' := true;
      p' := p.(payload := true);
    } else {
      error := Some(UnexpectedField);
    }
  }

  method IdAt(json: string, pos: nat, ghost p: Progress, id: array<char>, haveId: bool)
    returns (error: Option<RequestError>, end: nat)
    requires pos <= |json| && id.Length == ID_BUFFER && haveId == p.id.Some? && CString(id[..]) == IdSoFar(p)
    requires !haveId ==> forall i :: 0 <= i < id.Length ==> id[i] == '\0'
    modifies id
    ensures FieldAgrees(json, pos, end, error, id, ParseId(json[pos..], p))
    ensures error.None? ==> Some(CString(id[..])) == ParseId(json[pos..], p).progress.id
  {
    if haveId {
      return Some(DuplicateId), pos;
    }
    ghost var spec := ScanString(json[pos..], Some(ID_BUFFER));
    var scanError;
    scanError, end := ParseStringAt(json, pos, id);
    BufferCString(id, if spec.Read? then spec.out else spec.stored);
    error := if scanError.Some? then Some(Scanner(scanError.value)) else None;
  }

  method CmdAt(json: string, pos: nat, ghost p: Progress, id: array<char>, cmd: array<char>, haveCmd: bool)
    returns (error: Option<RequestError>, end: nat)
    requires pos <= |json| && cmd.Length == CMD_BUFFER && id != cmd
    requires haveCmd == p.cmd.Some? && CString(id[..]) == IdSoFar(p)
    modifies cmd
    ensures FieldAgrees(json, pos, end, error, id, ParseCmd(json[pos..], p))
    ensures error.None? ==> Some(CString(cmd[..])) == ParseCmd(json[pos..], p).progress.cmd
  {
    if haveCmd {
      return Some(DuplicateCmd), pos;
    }
    ghost var spec := ScanString(json[pos..], Some(CMD_BUFFER));
    var scanError;
    scanError, end := ParseStringAt(json, pos, cmd);
    if scanError.Some? {
      return Some(Scanner(scanError.value)), end;
    }
    BufferCString(cmd, spec.out);
    error := None;
  }

  method PayloadAt(json: string, pos: nat, ghost p: Progress, id: array<char>, havePayload: bool)
    returns (error: Option<RequestError>, end: nat)
    requires pos <= |json| && havePayload == p.payload && CString(id[..]) == IdSoFar(p)
    ensures FieldAgrees(json, pos, end, error, id, ParsePayload(json[pos..], p))
  {
    if havePayload {
      return Some(DuplicatePayload), pos;
    }
    var payloadPos := SkipWsAt(json, pos);
    var scanError;
    scanError, end := SkipValueAt(json, payloadPos, 1);
    if scanError.Some? {
      return Some(Scanner(scanError.value)), end;
    }
    if payloadPos >= |json| || json[payloadPos] != '{' {
      return Some(PayloadNotObject), end;
    }
    error := None;
  }
}
