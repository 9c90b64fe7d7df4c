/**
 The scanner of dpdkd/src/json_proto.c as functions of the text that is still unread, and the proof that
 it accepts exactly the grammar of module JsonGrammar up to the nesting limit.
 */
module JsonScanner {
  import opened JsonGrammar

  datatype ScanError =
    | ExpectedString | UnterminatedEscape | UnsupportedEscape | StringTooLong | UnterminatedString
    | NestingTooDeep | ExpectedObject | ExpectedColon | ExpectedMemberEnd | UnterminatedObject
    | ExpectedArray | ExpectedItemEnd | UnterminatedArray
    | InvalidLiteral | InvalidNumber | UnexpectedEnd | UnexpectedToken

  /** Either the unread text after what was scanned, or the first error. */
  datatype Scan = Ok(rest: string) | Err(error: ScanError)

  /** The stored bytes and the unread text, or the error and the bytes stored before it. */
  datatype StringScan = Read(out: string, rest: string) | Bad(error: ScanError, stored: string)

  predicate StartsWith(s: string, c: char) {
    s != [] && s[0] == c
  }

  // ----- the scanner -----

  function SkipWs(s: string): (r: string)
    ensures |r| <= |s|
    ensures r == [] || !IsWs(r[0])
  {
    if s != [] && IsWs(s[0]) then SkipWs(s[1..]) else s
  }

  /** `capacity` is the size of the output buffer, or None when the caller passes no buffer. */
  function ScanString(s: string, capacity: Option<nat>): (r: StringScan)
    ensures r.Read? ==> |r.rest| < |s|
  {
    var t := SkipWs(s);
    if StartsWith(t, '\"') then ScanBody(t[1..], capacity, []) else Bad(ExpectedString, [])
  }

  function ScanBody(s: string, capacity: Option<nat>, out: string): (r: StringScan)
    ensures r.Read? ==> |r.rest| < |s|
    decreases |s|
  {
    if s == [] then Bad(UnterminatedString, out)
    else if s[0] == '\"' then Read(out, s[1..])
    else if s[0] == '\\' then
      if |s| == 1 then Bad(UnterminatedEscape, out)
      else match Unescape(s[1])
        case None => Bad(UnsupportedEscape, out)
        case Some(c) =>
          if Full(capacity, out) then Bad(StringTooLong, out) else ScanBody(s[2..], capacity, out + [c])
    else if Full(capacity, out) then Bad(StringTooLong, out)
    else ScanBody(s[1..], capacity, out + [s[0]])
  }

  /** No room for one more byte and the terminating NUL. */
  predicate Full(capacity: Option<nat>, out: string) {
    capacity.Some? && capacity.value > 0 && |out| + 1 >= capacity.value
  }

  function SkipDigits(s: string): (r: string)
    ensures |r| <= |s|
    ensures r == [] || !IsDigit(r[0])
  {
    if s != [] && IsDigit(s[0]) then SkipDigits(s[1..]) else s
  }

  function SkipFraction(s: string): (r: string)
    ensures |r| <= |s|
  {
    if StartsWith(s, '.') then SkipDigits(s[1..]) else s
  }

  function SkipExponent(s: string): (r: string)
    ensures |r| <= |s|
  {
    if StartsWith(s, 'e') || StartsWith(s, 'E') then
      var t := s[1..];
      SkipDigits(if StartsWith(t, '+') || StartsWith(t, '-') then t[1..] else t)
    else s
  }

  function SkipNumber(s: string): (r: Scan)
    ensures r.Ok? ==> |r.rest| < |s|
  {
    var t := if StartsWith(s, '-') then s[1..] else s;
    var u := SkipDigits(t);
    if |u| == |t| then Err(InvalidNumber) else Ok(SkipExponent(SkipFraction(u)))
  }

  function SkipLiteral(s: string, literal: string): (r: Scan)
    requires literal != []
    ensures r.Ok? ==> |r.rest| < |s|
  {
    if literal <= s then Ok(s[|literal|..]) else Err(InvalidLiteral)
  }

  function SkipValue(s: string, level: nat): (r: Scan)
    ensures r.Ok? ==> |r.rest| < |s|
    decreases |s|, 1
  {
    var t := SkipWs(s);
    if t == [] then Err(UnexpectedEnd)
    else if t[0] == '{' then SkipObject(t, level)
    else if t[0] == '[' then SkipArray(t, level)
    else if t[0] == '\"' then
      match ScanString(t, None)
      case Read(_, rest) => Ok(rest)
      case Bad(error, _) => Err(error)
    else if t[0] == 't' then SkipLiteral(t, "true")
    else if t[0] == 'f' then SkipLiteral(t, "false")
    else if t[0] == 'n' then SkipLiteral(t, "null")
    else if t[0] == '-' || IsDigit(t[0]) then SkipNumber(t)
    else Err(UnexpectedToken)
  }

  function SkipObject(s: string, level: nat): (r: Scan)
    ensures r.Ok? ==> |r.rest| < |s|
    decreases |s|, 0
  {
    if level > MAX_NESTING then Err(NestingTooDeep)
    else
      var t := SkipWs(s);
      if StartsWith(t, '{') then SkipMembers(t[1..], level) else Err(ExpectedObject)
  }

  /** One pass per member of the object loop. */
  function SkipMembers(s: string, level: nat): (r: Scan)
    ensures r.Ok? ==> |r.rest| < |s|
    decreases |s|, 2
  {
    if s == [] then Err(UnterminatedObject)
    else
      var t := SkipWs(s);
      if StartsWith(t, '}') then Ok(t[1..])
      else
        match SkipMember(t, level)
        case Err(error) => Err(error)
        case Ok(afterValue) =>
          var x := SkipWs(afterValue);
          if StartsWith(x, ',') then SkipMembers(x[1..], level)
          else if StartsWith(x, '}') then Ok(x[1..])
          else Err(ExpectedMemberEnd)
  }

  /** A key, a colon and a value. */
  function SkipMember(s: string, level: nat): (r: Scan)
    ensures r.Ok? ==> |r.rest| < |s|
    decreases |s|, 0
  {
    match ScanString(s, None)
    case Bad(error, _) => Err(error)
    case Read(_, afterKey) =>
      var u := SkipWs(afterKey);
      if StartsWith(u, ':') then SkipValue(u[1..], level + 1) else Err(ExpectedColon)
  }

  function SkipArray(s: string, level: nat): (r: Scan)
    ensures r.Ok? ==> |r.rest| < |s|
    decreases |s|, 0
  {
    if level > MAX_NESTING then Err(NestingTooDeep)
    else
      var t := SkipWs(s);
      if StartsWith(t, '[') then SkipItems(t[1..], level) else Err(ExpectedArray)
  }

  /** One pass per item of the array loop. */
  function SkipItems(s: string, level: nat): (r: Scan)
    ensures r.Ok? ==> |r.rest| < |s|
    decreases |s|, 2
  {
    if s == [] then Err(UnterminatedArray)
    else
      var t := SkipWs(s);
      if StartsWith(t, ']') then Ok(t[1..])
      else
        match SkipValue(t, level + 1)
        case Err(error) => Err(error)
        case Ok(afterItem) =>
          var x := SkipWs(afterItem);
          if StartsWith(x, ',') then SkipItems(x[1..], level)
          else if StartsWith(x, ']') then Ok(x[1..])
          else Err(ExpectedItemEnd)
  }

  // ----- every text of the grammar is scanned to its end -----

  lemma {:induction false} WsSkipped(w: string, rest: string)
    requires Ws(w)
    requires rest == [] || !IsWs(rest[0])
    ensures SkipWs(w + rest) == rest
  {
    if w == [] {
      assert w + rest == rest;
    } else {
      assert (w + rest)[1..] == w[1..] + rest;
      WsSkipped(w[1..], rest);
    }
  }

  lemma {:induction false} DigitsSkipped(d: string, rest: string)
    requires Digits(d)
    requires rest == [] || !IsDigit(rest[0])
    ensures SkipDigits(d + rest) == rest
  {
    if d == [] {
      assert d + rest == rest;
    } else {
      assert (d + rest)[1..] == d[1..] + rest;
      DigitsSkipped(d[1..], rest);
    }
  }

  /** The bytes a body adds fit, with the NUL, in the buffer. */
  predicate Room(capacity: Option<nat>, n: nat) {
    capacity.Some? && capacity.value > 0 ==> n < capacity.value
  }

  lemma Prepended(out: string, c: char, rest: string)
    ensures out + ([c] + rest) == (out + [c]) + rest
    ensures forall n :: 0 < n <= |rest| + 1 ==> out + ([c] + rest)[..n] == (out + [c]) + rest[..n - 1]
  {
  }

  lemma {:induction false} BodyScanned(b: Body, rest: string, capacity: Option<nat>, out: string)
    requires WfBody(b)
    requires Room(capacity, |out|)
    ensures ScanBody(BodyOnto(b, ['\"'] + rest), capacity, out)
         == if Room(capacity, |out| + |b|) then Read(out + Decode(b), rest)
            else Bad(StringTooLong, out + Decode(b)[..capacity.value - 1 - |out|])
    decreases |b|
  {
    var s := BodyOnto(b, ['\"'] + rest);
    if b == [] {
      assert s[1..] == rest;
      assert out + Decode(b) == out;
    } else if Full(capacity, out) {
      assert out + Decode(b)[..capacity.value - 1 - |out|] == out;
    } else {
      var c := Meaning(b[0]);
      var tail := BodyOnto(b[1..], ['\"'] + rest);
      assert ScanBody(s, capacity, out) == ScanBody(tail, capacity, out + [c]) by {
        match b[0]
        case Raw(_) => assert s[1..] == tail;
        case Esc(_) => assert s[2..] == tail;
      }
      BodyScanned(b[1..], rest, capacity, out + [c]);
      assert Decode(b) == [c] + Decode(b[1..]);
      Prepended(out, c, Decode(b[1..]));
    }
  }

  /** A quoted string is decoded when it fits and rejected, with what fits stored, when it does not. */
  lemma StringScanned(w: string, b: Body, rest: string, capacity: Option<nat>)
    requires Ws(w) && WfBody(b)
    ensures ScanString(w + QuotedOnto(b, rest), capacity)
         == if Room(capacity, |b|) then Read(Decode(b), rest)
            else Bad(StringTooLong, Decode(b)[..capacity.value - 1])
  {
    var q := QuotedOnto(b, rest);
    WsSkipped(w, q);
    assert q[1..] == BodyOnto(b, ['\"'] + rest);
    BodyScanned(b, rest, capacity, []);
    assert [] + Decode(b) == Decode(b);
  }

  lemma NumberScanned(n: Number, rest: string)
    requires WfNumber(n) && NoExtend(n, rest)
    ensures SkipNumber(NumberOnto(n, rest)) == Ok(rest)
  {
    var e := ExponentOnto(n.exp, rest);
    var f := FractionOnto(n.frac, e);
    var s := NumberOnto(n, rest);
    assert (if StartsWith(s, '-') then s[1..] else s) == n.whole + f;
    DigitsSkipped(n.whole, f);
    assert SkipFraction(f) == e by {
      if n.frac.Some? {
        assert f[1..] == n.frac.value + e;
        DigitsSkipped(n.frac.value, e);
      }
    }
    assert SkipExponent(e) == rest by {
      if n.exp.Some? {
        ExponentScanned(n.exp.value, rest);
      }
    }
  }

  lemma ExponentScanned(x: Exponent, rest: string)
    requires WfExponent(x)
    requires rest == [] || !IsDigit(rest[0])
    requires x.sign.None? && x.digits == [] ==> !StartsWith(rest, '+') && !StartsWith(rest, '-')
    ensures SkipExponent(ExponentOnto(Some(x), rest)) == rest
  {
    var e := ExponentOnto(Some(x), rest);
    var t := SignOnto(x.sign, x.digits + rest);
    assert e[1..] == t;
    assert (if StartsWith(t, '+') || StartsWith(t, '-') then t[1..] else t) == x.digits + rest;
    DigitsSkipped(x.digits, rest);
  }

  /** No value starts with white space or with a closing bracket. */
  lemma ValueHead(v: Value, rest: string)
    requires WfValue(v)
    ensures var s := ValueOnto(v, rest); s != [] && !IsWs(s[0]) && s[0] != ']'
  {
  }

  ghost function Expected(fits: bool, rest: string): Scan {
    if fits then Ok(rest) else Err(NestingTooDeep)
  }

  lemma ScalarScanned(v: Value, rest: string, level: nat)
    requires WfValue(v) && CanFollow(v, rest) && !v.Arr? && !v.Obj?
    ensures SkipValue(ValueOnto(v, rest), level) == Ok(rest)
  {
    var s := ValueOnto(v, rest);
    ValueHead(v, rest);
    assert SkipWs(s) == s;
    match v
    case Str(body) =>
      StringScanned([], body, rest, None);
      assert [] + s == s;
    case Num(number) => NumberScanned(number, rest);
    case Lit(literal) => LiteralScanned(literal, rest, level);
  }

  lemma LiteralScanned(literal: Literal, rest: string, level: nat)
    ensures SkipValue(LiteralText(literal) + rest, level) == Ok(rest)
  {
    var s := LiteralText(literal) + rest;
    assert SkipWs(s) == s && s[|LiteralText(literal)|..] == rest;
  }

  /** Leading white space makes no difference. */
  lemma WsBeforeValue(w: string, s: string, level: nat)
    requires Ws(w) && s != [] && !IsWs(s[0])
    ensures SkipValue(w + s, level) == SkipValue(s, level)
  {
    WsSkipped(w, s);
    assert SkipWs(s) == s;
  }

  lemma {:induction false} ValueScanned(w: string, v: Value, rest: string, level: nat)
    requires Ws(w) && WfValue(v) && CanFollow(v, rest)
    ensures SkipValue(w + ValueOnto(v, rest), level) == Expected(WithinNesting(Depth(v), level), rest)
    decreases v, 1
  {
    var s := ValueOnto(v, rest);
    ValueHead(v, rest);
    WsBeforeValue(w, s, level);
    match v
    case Arr(items) =>
      assert SkipWs(s) == s && s[1..] == ItemsOnto(items, rest);
      if level <= MAX_NESTING { ItemsScanned(items, rest, level); }
    case Obj(members) =>
      assert SkipWs(s) == s && s[1..] == MembersOnto(members, rest);
      if level <= MAX_NESTING { MembersScanned(members, rest, level); }
    case _ => ScalarScanned(v, rest, level);
  }

  lemma {:induction false} ItemsScanned(xs: Items, rest: string, level: nat)
    requires WfItems(xs) && level <= MAX_NESTING
    ensures SkipItems(ItemsOnto(xs, rest), level) == Expected(WithinNesting(ItemsDepth(xs), level + 1), rest)
    decreases xs, 0
  {
    match xs
    case ItemsEnd(before) =>
      WsSkipped(before, [']'] + rest);
    case ItemsLast(before, item, after) =>
      var follow := [']'] + rest;
      ItemScanned(before, item, after, follow, level);
    case ItemsMore(before, item, after, more) =>
      var follow := [','] + ItemsOnto(more, rest);
      ItemScanned(before, item, after, follow, level);
      assert follow[1..] == ItemsOnto(more, rest);
      ItemsScanned(more, rest, level);
  }

  lemma {:induction false} ItemScanned(before: string, item: Value, after: string, follow: string, level: nat)
    requires Ws(before) && WfValue(item) && Ws(after)
    requires StartsWith(follow, ']') || StartsWith(follow, ',')
    ensures var s := before + ValueOnto(item, after + follow);
            && s != [] && SkipWs(s) != [] && SkipWs(s)[0] != ']'
            && SkipValue(SkipWs(s), level + 1) == Expected(WithinNesting(Depth(item), level + 1), after + follow)
            && SkipWs(after + follow) == follow
    decreases item, 2
  {
    var v := ValueOnto(item, after + follow);
    ValueHead(item, after + follow);
    WsSkipped(before, v);
    WsSkipped(after, follow);
    ValueScanned([], item, after + follow, level + 1);
    assert [] + v == v;
  }

  lemma {:induction false} MembersScanned(xs: Members, rest: string, level: nat)
    requires WfMembers(xs) && level <= MAX_NESTING
    ensures SkipMembers(MembersOnto(xs, rest), level)
         == Expected(WithinNesting(MembersDepth(xs), level + 1), rest)
    decreases xs, 0
  {
    match xs
    case MembersEnd(before) =>
      WsSkipped(before, ['}'] + rest);
    case MembersLast(before, member, after) =>
      var follow := ['}'] + rest;
      MemberScanned(before, member, after, follow, level);
    case MembersMore(before, member, after, more) =>
      var follow := [','] + MembersOnto(more, rest);
      MemberScanned(before, member, after, follow, level);
      assert follow[1..] == MembersOnto(more, rest);
      MembersScanned(more, rest, level);
  }

  lemma {:induction false} MemberScanned(before: string, m: Member, after: string, follow: string, level: nat)
    requires Ws(before) && WfMember(m) && Ws(after)
    requires StartsWith(follow, '}') || StartsWith(follow, ',')
    ensures var s := before + MemberOnto(m, after + follow);
            && s != [] && SkipWs(s) != [] && SkipWs(s)[0] != '}'
            && SkipMember(SkipWs(s), level)
                 == Expected(WithinNesting(Depth(m.value), level + 1), after + follow)
            && SkipWs(after + follow) == follow
    decreases m, 2
  {
    var tail := m.valueBefore + ValueOnto(m.value, after + follow);
    var q := MemberOnto(m, after + follow);
    WsSkipped(before, q);
    StringScanned([], m.key, m.keyAfter + ([':'] + tail), None);
    assert [] + q == q;
    WsSkipped(m.keyAfter, [':'] + tail);
    assert ([':'] + tail)[1..] == tail;
    ValueScanned(m.valueBefore, m.value, after + follow, level + 1);
    WsSkipped(after, follow);
  }

  // ----- every scanned text is a text of the grammar -----

  /** Splits off the leading white space. */
  lemma {:induction false} WsRead(s: string) returns (w: string)
    ensures Ws(w) && s == w + SkipWs(s)
  {
    if s != [] && IsWs(s[0]) {
      var w' := WsRead(s[1..]);
      w := [s[0]] + w';
    } else {
      w := [];
    }
  }

  lemma {:induction false} DigitsRead(s: string) returns (d: string)
    ensures Digits(d) && s == d + SkipDigits(s)
  {
    if s != [] && IsDigit(s[0]) {
      var d' := DigitsRead(s[1..]);
      d := [s[0]] + d';
    } else {
      d := [];
    }
  }

  /** A character in front of a body. */
  lemma BodyCons(ch: Ch, b: Body, rest: string)
    requires WfCh(ch) && WfBody(b)
    ensures WfBody([ch] + b) && Decode([ch] + b) == [Meaning(ch)] + Decode(b)
    ensures BodyOnto([ch] + b, rest) == ChOnto(ch, BodyOnto(b, rest))
  {
    assert ([ch] + b)[1..] == b;
  }

  lemma {:induction false} BodyRead(s: string, capacity: Option<nat>, out: string) returns (b: Body)
    requires ScanBody(s, capacity, out).Read?
    ensures WfBody(b) && s == BodyOnto(b, ['\"'] + ScanBody(s, capacity, out).rest)
    ensures ScanBody(s, capacity, out).out == out + Decode(b)
    ensures Room(capacity, |out|) ==> Room(capacity, |out| + |b|)
    decreases |s|
  {
    if s[0] == '\"' {
      b := [];
      assert s == ['\"'] + s[1..];
      return;
    }
    var ch := if s[0] == '\\' then Esc(s[1]) else Raw(s[0]);
    var t := if s[0] == '\\' then s[2..] else s[1..];
    assert s == ChOnto(ch, t);
    assert ScanBody(s, capacity, out) == ScanBody(t, capacity, out + [Meaning(ch)]);
    var b' := BodyRead(t, capacity, out + [Meaning(ch)]);
    b := [ch] + b';
    BodyCons(ch, b', ['\"'] + ScanBody(s, capacity, out).rest);
    Prepended(out, Meaning(ch), Decode(b'));
  }

  lemma StringRead(s: string, capacity: Option<nat>) returns (w: string, b: Body)
    requires ScanString(s, capacity).Read?
    ensures Ws(w) && WfBody(b) && s == w + QuotedOnto(b, ScanString(s, capacity).rest)
    ensures ScanString(s, capacity).out == Decode(b)
    ensures Room(capacity, |b|)
  {
    w := WsRead(s);
    var t := SkipWs(s);
    b := BodyRead(t[1..], capacity, []);
    assert [] + Decode(b) == Decode(b);
    assert t == ['\"'] + t[1..];
  }

  /** The optional sign and digits behind an exponent's marker. */
  lemma ExponentTail(t: string) returns (sign: Option<char>, d: string)
    ensures sign.Some? ==> sign.value == '+' || sign.value == '-'
    ensures Digits(d)
    ensures var u := if StartsWith(t, '+') || StartsWith(t, '-') then t[1..] else t;
            && t == SignOnto(sign, d + SkipDigits(u))
            && (SkipDigits(u) != [] ==> !IsDigit(SkipDigits(u)[0]))
            && (sign.None? && d == [] && SkipDigits(u) != [] ==> SkipDigits(u)[0] != '+' && SkipDigits(u)[0] != '-')
  {
    if StartsWith(t, '+') || StartsWith(t, '-') {
      sign := Some(t[0]);
      d := DigitsRead(t[1..]);
      assert t == [t[0]] + t[1..];
    } else {
      sign := None;
      d := DigitsRead(t);
      if d == [] {
        assert [] + SkipDigits(t) == SkipDigits(t);
      }
    }
  }

  lemma ExponentRead(s: string) returns (x: Option<Exponent>)
    requires s == [] || !IsDigit(s[0])
    ensures x.Some? ==> WfExponent(x.value)
    ensures s == ExponentOnto(x, SkipExponent(s))
    ensures ExponentEnds(x, SkipExponent(s))
    ensures x.None? ==> SkipExponent(s) == s
  {
    if StartsWith(s, 'e') || StartsWith(s, 'E') {
      var sign, d := ExponentTail(s[1..]);
      x := Some(Exponent(s[0], sign, d));
      assert s == [s[0]] + s[1..];
    } else {
      x := None;
    }
  }

  lemma FractionRead(s: string) returns (frac: Option<string>)
    requires s == [] || !IsDigit(s[0])
    ensures frac.Some? ==> Digits(frac.value)
    ensures frac.None? ==> !StartsWith(s, '.') && SkipFraction(s) == s
    ensures s == FractionOnto(frac, SkipFraction(s))
    ensures SkipFraction(s) == [] || !IsDigit(SkipFraction(s)[0])
  {
    if StartsWith(s, '.') {
      var d := DigitsRead(s[1..]);
      frac := Some(d);
      assert s == ['.'] + s[1..];
    } else {
      frac := None;
    }
  }

  lemma NumberRead(s: string) returns (n: Number)
    requires SkipNumber(s).Ok?
    ensures WfNumber(n) && s == NumberOnto(n, SkipNumber(s).rest) && NoExtend(n, SkipNumber(s).rest)
  {
    var negative := StartsWith(s, '-');
    var t := if negative then s[1..] else s;
    var whole := DigitsRead(t);
    var u := SkipDigits(t);
    assert whole != [] by { assert [] + u == u; }
    var frac := FractionRead(u);
    var v := SkipFraction(u);
    var exp := ExponentRead(v);
    var rest := SkipExponent(v);
    n := Number(negative, whole, frac, exp);
    assert s == SignOnto(if negative then Some('-') else None, t);
  }

  lemma ScalarRead(t: string, level: nat) returns (v: Value)
    requires SkipValue(t, level).Ok? && t != [] && SkipWs(t) == t && t[0] != '{' && t[0] != '['
    ensures WfValue(v) && t == ValueOnto(v, SkipValue(t, level).rest) && CanFollow(v, SkipValue(t, level).rest)
  {
    var rest := SkipValue(t, level).rest;
    if t[0] == '\"' {
      var w, b := StringRead(t, None);
      v := Str(b);
      assert w == [] && [] + QuotedOnto(b, rest) == QuotedOnto(b, rest);
    } else if t[0] == '-' || IsDigit(t[0]) {
      var n := NumberRead(t);
      v := Num(n);
    } else {
      v := Lit(if t[0] == 't' then True else if t[0] == 'f' then False else Null);
      assert t == LiteralText(v.literal) + rest;
    }
  }

  /** The tree of an accepted value. */
  lemma {:induction false} TreeRead(t: string, level: nat) returns (v: Value)
    requires t != [] && SkipWs(t) == t && SkipValue(t, level).Ok?
    ensures WfValue(v) && t == ValueOnto(v, SkipValue(t, level).rest) && CanFollow(v, SkipValue(t, level).rest)
    decreases |t|, 1
  {
    if t[0] == '{' {
      var xs := MembersRead(t[1..], level);
      v := Obj(xs);
      assert t == ['{'] + t[1..];
    } else if t[0] == '[' {
      var xs := ItemsRead(t[1..], level);
      v := Arr(xs);
      assert t == ['['] + t[1..];
    } else {
      v := ScalarRead(t, level);
    }
  }

  /** The tree and the leading white space of an accepted value. */
  lemma {:induction false} ValueRead(s: string, level: nat) returns (w: string, v: Value)
    requires SkipValue(s, level).Ok?
    ensures Ws(w) && WfValue(v) && s == w + ValueOnto(v, SkipValue(s, level).rest)
    ensures CanFollow(v, SkipValue(s, level).rest)
    decreases |s|, 2
  {
    w := WsRead(s);
    var t := SkipWs(s);
    SkipWsFirst(s, level);
    v := TreeRead(t, level);
  }

  lemma SkipWsFirst(s: string, level: nat)
    ensures SkipWs(SkipWs(s)) == SkipWs(s) && SkipValue(s, level) == SkipValue(SkipWs(s), level)
    ensures SkipValue(s, level).Ok? ==> SkipWs(s) != []
  {
  }

  lemma {:induction false} ItemsRead(s: string, level: nat) returns (xs: Items)
    requires SkipItems(s, level).Ok?
    ensures WfItems(xs) && s == ItemsOnto(xs, SkipItems(s, level).rest)
    decreases |s|, 4
  {
    var before := WsRead(s);
    var t := SkipWs(s);
    if StartsWith(t, ']') {
      xs := ItemsEnd(before);
      assert t == [']'] + t[1..];
      return;
    }
    var w, item := ValueRead(t, level + 1);
    assert w == [];
    assert t == ValueOnto(item, SkipValue(t, level + 1).rest);
    var u := SkipValue(t, level + 1).rest;
    var after := WsRead(u);
    var x := SkipWs(u);
    assert x == [x[0]] + x[1..];
    if StartsWith(x, ',') {
      var more := ItemsRead(x[1..], level);
      xs := ItemsMore(before, item, after, more);
    } else {
      xs := ItemsLast(before, item, after);
    }
  }

  lemma {:induction false} MembersRead(s: string, level: nat) returns (xs: Members)
    requires SkipMembers(s, level).Ok?
    ensures WfMembers(xs) && s == MembersOnto(xs, SkipMembers(s, level).rest)
    decreases |s|, 4
  {
    var before := WsRead(s);
    var t := SkipWs(s);
    if StartsWith(t, '}') {
      xs := MembersEnd(before);
      assert t == ['}'] + t[1..];
      return;
    }
    var member, u := MemberRead(t, level);
    var after := WsRead(u);
    var x := SkipWs(u);
    var rest := SkipMembers(s, level).rest;
    if StartsWith(x, ',') {
      var more := MembersRead(x[1..], level);
      xs := MoreMembersRead(s, before, t, member, u, after, x, more, rest);
    } else {
      xs := LastMemberRead(s, before, t, member, u, after, x);
    }
  }

  lemma MoreMembersRead(s: string, before: string, t: string, member: Member, u: string, after: string, x: string,
                        more: Members, rest: string)
    returns (xs: Members)
    requires Ws(before) && WfMember(member) && Ws(after) && WfMembers(more)
    requires s == before + t && t == MemberOnto(member, u) && u == after + x
    requires StartsWith(x, ',') && x[1..] == MembersOnto(more, rest)
    ensures WfMembers(xs) && s == MembersOnto(xs, rest)
  {
    xs := MembersMore(before, member, after, more);
    assert x == [','] + x[1..];
  }

  lemma LastMemberRead(s: string, before: string, t: string, member: Member, u: string, after: string, x: string)
    returns (xs: Members)
    requires Ws(before) && WfMember(member) && Ws(after)
    requires s == before + t && t == MemberOnto(member, u) && u == after + x && StartsWith(x, '}')
    ensures WfMembers(xs) && s == MembersOnto(xs, x[1..])
  {
    xs := MembersLast(before, member, after);
    assert x == ['}'] + x[1..];
  }

  lemma {:induction false} MemberRead(t: string, level: nat) returns (m: Member, rest: string)
    requires SkipWs(t) == t && SkipMember(t, level).Ok?
    ensures WfMember(m) && rest == SkipMember(t, level).rest && t == MemberOnto(m, rest)
    decreases |t|, 3
  {
    var w, key := StringRead(t, None);
    assert w == [] && [] + QuotedOnto(key, ScanString(t, None).rest) == QuotedOnto(key, ScanString(t, None).rest);
    var a := ScanString(t, None).rest;
    var keyAfter := WsRead(a);
    var u := SkipWs(a);
    assert u == [':'] + u[1..];
    var valueBefore, v := ValueRead(u[1..], level + 1);
    m := Member(key, keyAfter, valueBefore, v);
    rest := SkipValue(u[1..], level + 1).rest;
  }

  /** What each escape letter stands for; there are no others. */
  lemma EscapeLetters(letter: char)
    ensures Unescape('\"') == Some('\"') && Unescape('\\') == Some('\\') && Unescape('/') == Some('/')
    ensures Unescape('b') == Some('\U{08}') && Unescape('f') == Some('\U{0C}')
    ensures Unescape('n') == Some('\U{0A}') && Unescape('r') == Some('\U{0D}') && Unescape('t') == Some('\U{09}')
    ensures Unescape(letter).Some? <==> letter in "\"\\/bfnrt"
  {
    var letters := "\"\\/bfnrt";
    assert letters == ['\"', '\\', '/', 'b', 'f', 'n', 'r', 't'];
  }

  // ----- the language -----

  /** `s` is white space, a value of the grammar, and then `rest`. */
  ghost predicate Spells(s: string, w: string, v: Value, rest: string) {
    Ws(w) && WfValue(v) && s == w + ValueOnto(v, rest) && CanFollow(v, rest)
  }

  /** The scanner accepts exactly the values of the grammar within the nesting limit, to their exact end. */
  lemma ScannerLanguage(s: string, level: nat, rest: string)
    ensures SkipValue(s, level) == Ok(rest)
       <==> exists w, v :: Spells(s, w, v, rest) && WithinNesting(Depth(v), level)
  {
    if SkipValue(s, level) == Ok(rest) {
      var w, v := ValueRead(s, level);
      ValueScanned(w, v, rest, level);
      assert Spells(s, w, v, rest) && WithinNesting(Depth(v), level);
    }
    if w, v :| Spells(s, w, v, rest) && WithinNesting(Depth(v), level) {
      ValueScanned(w, v, rest, level);
    }
  }

  /** A well-formed value that nests too deeply is refused, and for that reason. */
  lemma DeepValuesRefused(s: string, w: string, v: Value, rest: string, level: nat)
    requires Spells(s, w, v, rest)
    ensures SkipValue(s, level) == Err(NestingTooDeep) <==> !WithinNesting(Depth(v), level)
  {
    ValueScanned(w, v, rest, level);
  }
}
