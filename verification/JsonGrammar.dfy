/**
 The language of the datapath's hand-written JSON scanner, as concrete syntax trees.

 The trees follow the scanner and not RFC 8259: a container may end with a trailing comma, a number may
 have leading zeros and empty fraction or exponent digits, and only the eight two-character escapes exist.
 Printing is in continuation style: `ValueOnto(v, rest)` is the text of `v` followed by `rest`.
 */
module JsonGrammar {

  datatype Option<+T> = None | Some(value: T)

  // ----- white space and digits -----

  predicate IsWs(c: char) {
    c == ' ' || c == '\n' || c == '\r' || c == '\t'
  }

  predicate Ws(w: string) {
    forall i :: 0 <= i < |w| ==> IsWs(w[i])
  }

  predicate IsDigit(c: char) {
    '0' <= c <= '9'
  }

  predicate Digits(d: string) {
    forall i :: 0 <= i < |d| ==> IsDigit(d[i])
  }

  // ----- strings -----

  /** One character of a string body: a byte standing for itself, or a backslash and an escape letter. */
  datatype Ch = Raw(c: char) | Esc(letter: char)

  /** The byte that a two-character escape stands for, if the scanner supports it. */
  function Unescape(letter: char): (r: Option<char>) {
    match letter
    case '\"' => Some('\"')
    case '\\' => Some('\\')
    case '/' => Some('/')
    case 'b' => Some(8 as char)
    case 'f' => Some(12 as char)
    case 'n' => Some('\n')
    case 'r' => Some('\r')
    case 't' => Some('\t')
    case _ => None
  }

  predicate WfCh(ch: Ch) {
    match ch
    case Raw(c) => c != '\"' && c != '\\'
    case Esc(letter) => Unescape(letter).Some?
  }

  function Meaning(ch: Ch): (c: char)
    requires WfCh(ch)
  {
    match ch
    case Raw(c) => c
    case Esc(letter) => Unescape(letter).value
  }

  type Body = seq<Ch>

  predicate WfBody(b: Body) {
    forall i :: 0 <= i < |b| ==> WfCh(b[i])
  }

  /** The bytes a string body denotes. */
  function Decode(b: Body): (out: string)
    requires WfBody(b)
    ensures |out| == |b|
  {
    seq(|b|, i requires 0 <= i < |b| => Meaning(b[i]))
  }

  function ChOnto(ch: Ch, rest: string): (s: string) {
    match ch
    case Raw(c) => [c] + rest
    case Esc(letter) => ['\\'] + ([letter] + rest)
  }

  function BodyOnto(b: Body, rest: string): (s: string) {
    if b == [] then rest else ChOnto(b[0], BodyOnto(b[1..], rest))
  }

  /** A quoted string. */
  function QuotedOnto(b: Body, rest: string): (s: string) {
    ['\"'] + BodyOnto(b, ['\"'] + rest)
  }

  // ----- numbers -----

  datatype Exponent = Exponent(marker: char, sign: Option<char>, digits: string)

  datatype Number = Number(negative: bool, whole: string, frac: Option<string>, exp: Option<Exponent>)

  predicate WfExponent(e: Exponent) {
    && (e.marker == 'e' || e.marker == 'E')
    && (e.sign.Some? ==> e.sign.value == '+' || e.sign.value == '-')
    && Digits(e.digits)
  }

  predicate WfNumber(n: Number) {
    && n.whole != [] && Digits(n.whole)
    && (n.frac.Some? ==> Digits(n.frac.value))
    && (n.exp.Some? ==> WfExponent(n.exp.value))
  }

  function SignOnto(sign: Option<char>, rest: string): (s: string) {
    if sign.Some? then [sign.value] + rest else rest
  }

  function ExponentOnto(exp: Option<Exponent>, rest: string): (s: string) {
    if exp.Some? then [exp.value.marker] + SignOnto(exp.value.sign, exp.value.digits + rest) else rest
  }

  function FractionOnto(frac: Option<string>, rest: string): (s: string) {
    if frac.Some? then ['.'] + (frac.value + rest) else rest
  }

  function NumberOnto(n: Number, rest: string): (s: string) {
    SignOnto(if n.negative then Some('-') else None,
             n.whole + FractionOnto(n.frac, ExponentOnto(n.exp, rest)))
  }

  /** What follows an exponent, or the place where one could start, must not be readable as more of it. */
  predicate ExponentEnds(exp: Option<Exponent>, rest: string) {
    rest == [] || (
      && !IsDigit(rest[0])
      && (exp.None? ==> rest[0] != 'e' && rest[0] != 'E')
      && (exp.Some? && exp.value.sign.None? && exp.value.digits == [] ==> rest[0] != '+' && rest[0] != '-'))
  }

  /** What follows a number must not be readable as more of it. */
  predicate NoExtend(n: Number, rest: string) {
    ExponentEnds(n.exp, rest) && (rest != [] && n.frac.None? && n.exp.None? ==> rest[0] != '.')
  }

  // ----- literals -----

  datatype Literal = True | False | Null

  function LiteralText(l: Literal): (s: string) {
    match l
    case True => "true"
    case False => "false"
    case Null => "null"
  }

  // ----- values -----

  datatype Value =
    | Str(body: Body)
    | Num(number: Number)
    | Lit(literal: Literal)
    | Arr(items: Items)
    | Obj(members: Members)

  /** What may follow '[': a close (also after a trailing comma), a last item, or an item and a comma. */
  datatype Items =
    | ItemsEnd(before: string)
    | ItemsLast(before: string, item: Value, after: string)
    | ItemsMore(before: string, item: Value, after: string, rest: Items)

  /** What may follow '{'. */
  datatype Members =
    | MembersEnd(before: string)
    | MembersLast(before: string, member: Member, after: string)
    | MembersMore(before: string, member: Member, after: string, rest: Members)

  datatype Member = Member(key: Body, keyAfter: string, valueBefore: string, value: Value)

  predicate WfValue(v: Value) {
    match v
    case Str(body) => WfBody(body)
    case Num(number) => WfNumber(number)
    case Lit(_) => true
    case Arr(items) => WfItems(items)
    case Obj(members) => WfMembers(members)
  }

  predicate WfItems(xs: Items) {
    Ws(xs.before) && match xs
    case ItemsEnd(_) => true
    case ItemsLast(_, item, after) => WfValue(item) && Ws(after)
    case ItemsMore(_, item, after, rest) => WfValue(item) && Ws(after) && WfItems(rest)
  }

  predicate WfMembers(xs: Members) {
    Ws(xs.before) && match xs
    case MembersEnd(_) => true
    case MembersLast(_, member, after) => WfMember(member) && Ws(after)
    case MembersMore(_, member, after, rest) => WfMember(member) && Ws(after) && WfMembers(rest)
  }

  predicate WfMember(m: Member) {
    WfBody(m.key) && Ws(m.keyAfter) && Ws(m.valueBefore) && WfValue(m.value)
  }

  function ValueOnto(v: Value, rest: string): (s: string) {
    match v
    case Str(body) => QuotedOnto(body, rest)
    case Num(number) => NumberOnto(number, rest)
    case Lit(literal) => LiteralText(literal) + rest
    case Arr(items) => ['['] + ItemsOnto(items, rest)
    case Obj(members) => ['{'] + MembersOnto(members, rest)
  }

  function ItemsOnto(xs: Items, rest: string): (s: string) {
    match xs
    case ItemsEnd(before) => before + ([']'] + rest)
    case ItemsLast(before, item, after) => before + ValueOnto(item, after + ([']'] + rest))
    case ItemsMore(before, item, after, more) =>
      before + ValueOnto(item, after + ([','] + ItemsOnto(more, rest)))
  }

  function MembersOnto(xs: Members, rest: string): (s: string) {
    match xs
    case MembersEnd(before) => before + (['}'] + rest)
    case MembersLast(before, member, after) => before + MemberOnto(member, after + (['}'] + rest))
    case MembersMore(before, member, after, more) =>
      before + MemberOnto(member, after + ([','] + MembersOnto(more, rest)))
  }

  function MemberOnto(m: Member, rest: string): (s: string) {
    QuotedOnto(m.key, m.keyAfter + ([':'] + (m.valueBefore + ValueOnto(m.value, rest))))
  }

  // ----- nesting -----

  function Max(a: nat, b: nat): (m: nat) {
    if a < b then b else a
  }

  /** How many containers nest in a value. */
  function Depth(v: Value): (d: nat) {
    match v
    case Arr(items) => 1 + ItemsDepth(items)
    case Obj(members) => 1 + MembersDepth(members)
    case _ => 0
  }

  function ItemsDepth(xs: Items): (d: nat) {
    match xs
    case ItemsEnd(_) => 0
    case ItemsLast(_, item, _) => Depth(item)
    case ItemsMore(_, item, _, rest) => Max(Depth(item), ItemsDepth(rest))
  }

  function MembersDepth(xs: Members): (d: nat) {
    match xs
    case MembersEnd(_) => 0
    case MembersLast(_, member, _) => Depth(member.value)
    case MembersMore(_, member, _, rest) => Max(Depth(member.value), MembersDepth(rest))
  }

  const MAX_NESTING: nat := 16

  /** The nesting limit, for containers of nesting `d` whose outermost one sits at level `level`. */
  predicate WithinNesting(d: nat, level: nat) {
    d == 0 || level + d <= MAX_NESTING + 1
  }

  predicate CanFollow(v: Value, rest: string) {
    v.Num? ==> NoExtend(v.number, rest)
  }

  // ----- the continuation style is plain concatenation -----

  lemma {:induction false} BodyOntoIsConcat(b: Body, rest: string)
    ensures BodyOnto(b, rest) == BodyOnto(b, []) + rest
  {
    if b != [] {
      BodyOntoIsConcat(b[1..], rest);
    }
  }

  lemma {:induction false} QuotedOntoIsConcat(b: Body, rest: string)
    ensures QuotedOnto(b, rest) == QuotedOnto(b, []) + rest
  {
    BodyOntoIsConcat(b, ['\"'] + rest);
    BodyOntoIsConcat(b, ['\"'] + []);
  }

  lemma SignOntoIsConcat(sign: Option<char>, a: string, rest: string)
    ensures SignOnto(sign, a + rest) == SignOnto(sign, a) + rest
  {
    if sign.Some? {
      assert [sign.value] + (a + rest) == ([sign.value] + a) + rest;
    }
  }

  lemma ExponentOntoIsConcat(exp: Option<Exponent>, rest: string)
    ensures ExponentOnto(exp, rest) == ExponentOnto(exp, []) + rest
  {
    if exp.Some? {
      SignOntoIsConcat(exp.value.sign, exp.value.digits, rest);
      SignOntoIsConcat(exp.value.sign, exp.value.digits, []);
    }
  }

  lemma FractionOntoIsConcat(frac: Option<string>, a: string, rest: string)
    ensures FractionOnto(frac, a + rest) == FractionOnto(frac, a) + rest
  {
    if frac.Some? {
      assert ['.'] + (frac.value + (a + rest)) == (['.'] + (frac.value + a)) + rest;
    }
  }

  lemma NumberOntoIsConcat(n: Number, rest: string)
    ensures NumberOnto(n, rest) == NumberOnto(n, []) + rest
  {
    var e := ExponentOnto(n.exp, []);
    var f := FractionOnto(n.frac, e);
    ExponentOntoIsConcat(n.exp, rest);
    FractionOntoIsConcat(n.frac, e, rest);
    assert n.whole + (f + rest) == (n.whole + f) + rest;
    SignOntoIsConcat(if n.negative then Some('-') else None, n.whole + f, rest);
  }

  lemma {:induction false} ValueOntoIsConcat(v: Value, rest: string)
    ensures ValueOnto(v, rest) == ValueOnto(v, []) + rest
  {
    match v
    case Str(body) => QuotedOntoIsConcat(body, rest);
    case Num(number) => NumberOntoIsConcat(number, rest);
    case Lit(literal) =>
    case Arr(items) => ItemsOntoIsConcat(items, rest);
    case Obj(members) => MembersOntoIsConcat(members, rest);
  }

  lemma {:induction false} ItemsOntoIsConcat(xs: Items, rest: string)
    ensures ItemsOnto(xs, rest) == ItemsOnto(xs, []) + rest
  {
    match xs
    case ItemsEnd(_) =>
    case ItemsLast(_, item, after) =>
      ValueOntoIsConcat(item, after + ([']'] + rest));
      ValueOntoIsConcat(item, after + ([']'] + []));
    case ItemsMore(_, item, after, more) =>
      ItemsOntoIsConcat(more, rest);
      ValueOntoIsConcat(item, after + ([','] + ItemsOnto(more, rest)));
      ValueOntoIsConcat(item, after + ([','] + ItemsOnto(more, [])));
  }

  lemma {:induction false} MembersOntoIsConcat(xs: Members, rest: string)
    ensures MembersOnto(xs, rest) == MembersOnto(xs, []) + rest
  {
    match xs
    case MembersEnd(_) =>
    case MembersLast(_, member, after) =>
      MemberOntoIsConcat(member, after + (['}'] + rest));
      MemberOntoIsConcat(member, after + (['}'] + []));
    case MembersMore(_, member, after, more) =>
      MembersOntoIsConcat(more, rest);
      MemberOntoIsConcat(member, after + ([','] + MembersOnto(more, rest)));
      MemberOntoIsConcat(member, after + ([','] + MembersOnto(more, [])));
  }

  lemma {:induction false} MemberOntoIsConcat(m: Member, rest: string)
    ensures MemberOnto(m, rest) == MemberOnto(m, []) + rest
  {
    ValueOntoIsConcat(m.value, rest);
    QuotedOntoIsConcat(m.key, m.keyAfter + ([':'] + (m.valueBefore + ValueOnto(m.value, rest))));
    QuotedOntoIsConcat(m.key, m.keyAfter + ([':'] + (m.valueBefore + ValueOnto(m.value, []))));
  }
}
