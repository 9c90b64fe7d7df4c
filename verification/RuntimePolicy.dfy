/**
 The core-list parser and the datapath's runtime profile (ctrld/pktlab_ctrld/config/validation.py): which
 requests are accepted, what they resolve to, and how large the buffers it derives are.
 */
module Lcores {
  import opened JsonGrammar
  import opened Responses

  // ----- text -----

  predicate IsBlank(c: char) {
    c == ' ' || '\t' <= c <= '\r' || '\U{1c}' <= c <= '\U{1f}'
  }

  predicate Blanks(s: string) {
    forall i :: 0 <= i < |s| ==> IsBlank(s[i])
  }

  function StripLeft(s: string): (r: string)
    ensures |r| <= |s|
  {
    if s != [] && IsBlank(s[0]) then StripLeft(s[1..]) else s
  }

  function StripRight(s: string): (r: string)
    ensures |r| <= |s|
  {
    if s != [] && IsBlank(s[|s| - 1]) then StripRight(s[..|s| - 1]) else s
  }

  function Strip(s: string): (r: string) {
    StripRight(StripLeft(s))
  }

  /** The position of the first `c`, or the length of the text. */
  function Find(s: string, c: char): (i: nat)
    ensures i <= |s| && c !in s[..i] && (i < |s| ==> s[i] == c)
  {
    if s == [] || s[0] == c then 0
    else
      var i := 1 + Find(s[1..], c);
      assert s[..i] == [s[0]] + s[1..][..i - 1];
      i
  }

  function Split(s: string, c: char): (parts: seq<string>) {
    var i := Find(s, c);
    if i == |s| then [s] else [s[..i]] + Split(s[i + 1..], c)
  }

  /** The value of a run of decimal digits. */
  function ValueOf(d: string): (n: nat)
    requires Digits(d)
  {
    if d == [] then 0 else 10 * ValueOf(d[..|d| - 1]) + DigitValue(d[|d| - 1])
  }

  function DigitValue(c: char): (d: nat)
    requires IsDigit(c)
    ensures d < 10
  {
    c as int - '0' as int
  }

  /** Reading a printed number gives the number back. */
  lemma {:induction false} ValueOfDec(n: nat)
    ensures ValueOf(Dec(n)) == n
  {
    if n < 10 {
      assert DigitValue(DigitChar(n)) == n;
    } else {
      ValueOfDec(n / 10);
      var d := Dec(n);
      assert d[..|d| - 1] == Dec(n / 10);
      assert DigitValue(DigitChar(n % 10)) == n % 10;
    }
  }

  // ----- the parser -----

  datatype LcoreIssue = InvalidSpec | InvalidRange | DuplicateLcore

  datatype Parsed = Parsed(ids: seq<nat>, issue: Option<LcoreIssue>)

  /** The ids from `lo` up to and including `hi`. */
  function Span(lo: nat, hi: nat): (ids: seq<nat>)
    ensures |ids| == if lo <= hi then hi - lo + 1 else 0
    ensures forall i :: 0 <= i < |ids| ==> ids[i] == lo + i
    decreases hi + 1 - lo
  {
    if lo > hi then [] else [lo] + Span(lo + 1, hi)
  }

  predicate AllDigits(t: string) {
    t != [] && Digits(t)
  }

  /** The ids a token stands for, or what is wrong with it. */
  function ParseToken(t: string): (r: Parsed) {
    var i := Find(t, '-');
    if i == |t| then
      if AllDigits(t) then Parsed([ValueOf(t)], None) else Parsed([1], Some(InvalidSpec))
    else
      var lo, hi := t[..i], t[i + 1..];
      if !AllDigits(lo) || !AllDigits(hi) then Parsed([1], Some(InvalidSpec))
      else if ValueOf(lo) > ValueOf(hi) then Parsed([1], Some(InvalidRange))
      else Parsed(Span(ValueOf(lo), ValueOf(hi)), None)
  }

  /** The tokens between commas, stripped, without the empty ones. */
  function Tokens(parts: seq<string>): (tokens: seq<string>) {
    if parts == [] then []
    else (if Strip(parts[0]) == [] then [] else [Strip(parts[0])]) + Tokens(parts[1..])
  }

  predicate NoRepeats(ids: seq<nat>) {
    forall i, j :: 0 <= i < j < |ids| ==> ids[i] != ids[j]
  }

  function SetOf(ids: seq<nat>): (s: set<nat>) {
    set i | i in ids
  }

  lemma {:induction false} RepeatsShrink(ids: seq<nat>)
    ensures |SetOf(ids)| <= |ids|
    ensures |SetOf(ids)| == |ids| <==> NoRepeats(ids)
  {
    if ids == [] {
      assert SetOf(ids) == {};
    } else {
      var n := |ids| - 1;
      var front := ids[..n];
      RepeatsShrink(front);
      assert ids == front + [ids[n]];
      assert SetOf(ids) == SetOf(front) + {ids[n]};
      if ids[n] in front {
        var k :| 0 <= k < n && front[k] == ids[n];
        assert ids[k] == ids[n];
        assert SetOf(ids) == SetOf(front);
      } else {
        assert forall k :: 0 <= k < n ==> front[k] == ids[k];
        assert NoRepeats(front) <==> NoRepeats(ids);
      }
    }
  }

  predicate Ascending(ids: seq<nat>) {
    forall i, j :: 0 <= i < j < |ids| ==> ids[i] < ids[j]
  }

  lemma AscendingCons(first: nat, rest: seq<nat>)
    requires Ascending(rest) && forall x :: x in rest ==> first < x
    ensures Ascending([first] + rest)
  {
    var all := [first] + rest;
    forall i, j | 0 <= i < j < |all|
      ensures all[i] < all[j]
    {
      assert all[j] == rest[j - 1] && rest[j - 1] in rest;
    }
  }

  lemma AscendingTail(ids: seq<nat>)
    requires Ascending(ids) && ids != []
    ensures Ascending(ids[1..]) && forall x :: x in ids[1..] ==> ids[0] < x
  {
  }

  /** An ascending list with one more id. */
  function Insert(id: nat, ids: seq<nat>): (r: seq<nat>)
    requires Ascending(ids)
    ensures Ascending(r) && forall x :: x in r <==> x in ids || x == id
  {
    if ids == [] then [id]
    else
      AscendingTail(ids);
      assert ids == [ids[0]] + ids[1..];
      if id == ids[0] then ids
      else if id < ids[0] then
        AscendingCons(id, ids);
        [id] + ids
      else
        var rest := Insert(id, ids[1..]);
        AscendingCons(ids[0], rest);
        [ids[0]] + rest
  }

  /** The distinct ids in ascending order. */
  function SortedSet(ids: seq<nat>): (r: seq<nat>)
    ensures Ascending(r) && forall x :: x in r <==> x in ids
  {
    if ids == [] then [] else Insert(ids[0], SortedSet(ids[1..]))
  }

  /** What is made of the ids of all tokens. */
  function Conclude(parsed: seq<nat>): (r: Parsed) {
    if NoRepeats(parsed) then Parsed(parsed, None) else Parsed(SortedSet(parsed), Some(DuplicateLcore))
  }

  /** The ids of the tokens in order, up to the first bad token. */
  function ParseTokens(tokens: seq<string>, parsed: seq<nat>): (r: Parsed) {
    if tokens == [] then Conclude(parsed)
    else
      var t := ParseToken(tokens[0]);
      if t.issue.Some? then t else ParseTokens(tokens[1..], parsed + t.ids)
  }

  /** What a core list stands for, as a function of its text. */
  function ParseSpec(value: string): (r: Parsed) {
    var tokens := Tokens(Split(value, ','));
    if tokens == [] then Parsed([1], Some(InvalidSpec)) else ParseTokens(tokens, [])
  }

  /** The loop over the tokens, with its early exits, gives what the specification says. */
  method ParseLcoreSpec(value: string) returns (r: Parsed)
    ensures r == ParseSpec(value)
  {
    var tokens := Tokens(Split(value, ','));
    if tokens == [] {
      return Parsed([1], Some(InvalidSpec));
    }
    var parsed: seq<nat> := [];
    for index := 0 to |tokens|
      invariant ParseTokens(tokens[index..], parsed) == ParseTokens(tokens, [])
    {
      var token := tokens[index];
      assert tokens[index..][0] == token && tokens[index..][1..] == tokens[index + 1..];
      var dash := Find(token, '-');
      if dash < |token| {
        var startText, endText := token[..dash], token[dash + 1..];
        if !AllDigits(startText) || !AllDigits(endText) {
          return Parsed([1], Some(InvalidSpec));
        }
        var start, end := ValueOf(startText), ValueOf(endText);
        if start > end {
          return Parsed([1], Some(InvalidRange));
        }
        parsed := parsed + Span(start, end);
        continue;
      }
      if !AllDigits(token) {
        return Parsed([1], Some(InvalidSpec));
      }
      parsed := parsed + [ValueOf(token)];
    }
    RepeatsShrink(parsed);
    if |parsed| != |SetOf(parsed)| {
      return Parsed(SortedSet(parsed), Some(DuplicateLcore));
    }
    return Parsed(parsed, None);
  }

  // ----- printing -----

  /** One id, or an ascending range, each number written with any leading zeros. */
  datatype Item = One(text: string) | Range(lo: string, hi: string)

  predicate WfItem(i: Item) {
    match i
    case One(text) => AllDigits(text)
    case Range(lo, hi) => AllDigits(lo) && AllDigits(hi) && ValueOf(lo) <= ValueOf(hi)
  }

  function ItemText(i: Item): (t: string) {
    match i
    case One(text) => text
    case Range(lo, hi) => lo + "-" + hi
  }

  function ItemIds(i: Item): (ids: seq<nat>)
    requires WfItem(i)
  {
    match i
    case One(text) => [ValueOf(text)]
    case Range(lo, hi) => Span(ValueOf(lo), ValueOf(hi))
  }

  /** What stands between two commas: blanks, perhaps around an item. */
  datatype Piece = Piece(before: string, item: Option<Item>, after: string)

  predicate WfPiece(p: Piece) {
    Blanks(p.before) && Blanks(p.after) && (p.item.Some? ==> WfItem(p.item.value))
  }

  function PieceText(p: Piece): (t: string) {
    p.before + (match p.item case Some(i) => ItemText(i) case None => "") + p.after
  }

  function Texts(pieces: seq<Piece>): (parts: seq<string>) {
    if pieces == [] then [] else [PieceText(pieces[0])] + Texts(pieces[1..])
  }

  function Join(parts: seq<string>): (s: string) {
    if parts == [] then "" else if |parts| == 1 then parts[0] else parts[0] + "," + Join(parts[1..])
  }

  function Print(pieces: seq<Piece>): (s: string) {
    Join(Texts(pieces))
  }

  predicate WfPieces(pieces: seq<Piece>) {
    forall i :: 0 <= i < |pieces| ==> WfPiece(pieces[i])
  }

  function Ids(pieces: seq<Piece>): (ids: seq<nat>)
    requires WfPieces(pieces)
  {
    if pieces == [] then []
    else (match pieces[0].item case Some(i) => ItemIds(i) case None => []) + Ids(pieces[1..])
  }

  predicate HasItem(pieces: seq<Piece>) {
    exists i :: 0 <= i < |pieces| && pieces[i].item.Some?
  }

  lemma {:induction false} StripLeftDrops(blanks: string, t: string)
    requires Blanks(blanks) && (t == [] || !IsBlank(t[0]))
    ensures StripLeft(blanks + t) == t
  {
    if blanks == [] {
      assert blanks + t == t;
    } else {
      assert (blanks + t)[1..] == blanks[1..] + t;
      StripLeftDrops(blanks[1..], t);
    }
  }

  lemma {:induction false} StripRightDrops(t: string, blanks: string)
    requires Blanks(blanks) && (t == [] || !IsBlank(t[|t| - 1]))
    ensures StripRight(t + blanks) == t
  {
    if blanks == [] {
      assert t + blanks == t;
    } else {
      var n := |blanks| - 1;
      assert (t + blanks)[..|t| + n] == t + blanks[..n];
      StripRightDrops(t, blanks[..n]);
    }
  }

  lemma StripPiece(p: Piece)
    requires WfPiece(p)
    ensures Strip(PieceText(p)) == match p.item case Some(i) => ItemText(i) case None => ""
  {
    if p.item.Some? {
      var t := ItemText(p.item.value);
      assert PieceText(p) == p.before + (t + p.after);
      assert !IsBlank(t[0]) && !IsBlank(t[|t| - 1]);
      StripLeftDrops(p.before, t + p.after);
      StripRightDrops(t, p.after);
    } else {
      var all := p.before + p.after;
      assert PieceText(p) == all + [] == all;
      StripLeftDrops(all, []);
    }
  }

  lemma {:induction false} FindFirst(a: string, c: char, b: string)
    requires c !in a
    ensures Find(a + [c] + b, c) == |a|
  {
    if a == [] {
      assert a + [c] + b == [c] + b;
    } else {
      assert (a + [c] + b)[1..] == a[1..] + [c] + b;
      FindFirst(a[1..], c, b);
    }
  }

  lemma {:induction false} SplitUndoesJoin(parts: seq<string>)
    requires parts != [] && forall i :: 0 <= i < |parts| ==> ',' !in parts[i]
    ensures Split(Join(parts), ',') == parts
  {
    if |parts| > 1 {
      var s := Join(parts);
      var rest := Join(parts[1..]);
      FindFirst(parts[0], ',', rest);
      assert s == parts[0] + [','] + rest;
      assert s[..|parts[0]|] == parts[0] && s[|parts[0]| + 1..] == rest;
      SplitUndoesJoin(parts[1..]);
    } else {
      assert parts == [parts[0]];
    }
  }

  lemma ItemParses(i: Item)
    requires WfItem(i)
    ensures ParseToken(ItemText(i)) == Parsed(ItemIds(i), None) && ItemText(i) != ""
  {
    match i
    case One(text) =>
    case Range(lo, hi) =>
      var t := ItemText(i);
      FindFirst(lo, '-', hi);
      assert t == lo + ['-'] + hi;
      assert t[..|lo|] == lo && t[|lo| + 1..] == hi;
  }

  lemma {:induction false} TextsHaveNoComma(pieces: seq<Piece>)
    requires WfPieces(pieces)
    ensures |Texts(pieces)| == |pieces| && forall i :: 0 <= i < |pieces| ==> ',' !in Texts(pieces)[i]
  {
    if pieces != [] {
      NoComma(pieces[0]);
      TextsHaveNoComma(pieces[1..]);
    }
  }

  /** The tokens of a printed list are its items' texts. */
  function ItemTexts(pieces: seq<Piece>): (tokens: seq<string>) {
    if pieces == [] then []
    else (match pieces[0].item case Some(i) => [ItemText(i)] case None => []) + ItemTexts(pieces[1..])
  }

  lemma {:induction false} TokensAreItems(pieces: seq<Piece>)
    requires WfPieces(pieces)
    ensures Tokens(Texts(pieces)) == ItemTexts(pieces)
    ensures ItemTexts(pieces) == [] <==> !HasItem(pieces)
  {
    if pieces != [] {
      var p, rest := pieces[0], pieces[1..];
      assert pieces == [p] + rest;
      StripPiece(p);
      TokensAreItems(rest);
      HasItemCons(p, rest);
      TokensCons(p, rest);
      if p.item.Some? {
        ItemParses(p.item.value);
      }
    }
  }

  lemma ItemStep(i: Item, tokens: seq<string>, parsed: seq<nat>)
    requires WfItem(i)
    ensures ParseTokens([ItemText(i)] + tokens, parsed) == ParseTokens(tokens, parsed + ItemIds(i))
  {
    ItemParses(i);
    assert ([ItemText(i)] + tokens)[1..] == tokens;
  }

  lemma Regroup(a: seq<nat>, b: seq<nat>, c: seq<nat>)
    ensures (a + b) + c == a + (b + c)
  {
  }

  lemma {:induction false} ItemsParse(pieces: seq<Piece>, parsed: seq<nat>)
    requires WfPieces(pieces)
    ensures ParseTokens(ItemTexts(pieces), parsed) == Conclude(parsed + Ids(pieces))
  {
    if pieces == [] {
      assert parsed + Ids(pieces) == parsed;
      return;
    }
    var p, rest := pieces[0], pieces[1..];
    match p.item
    case Some(i) =>
      ItemStep(i, ItemTexts(rest), parsed);
      ItemsParse(rest, parsed + ItemIds(i));
      Regroup(parsed, ItemIds(i), Ids(rest));
    case None =>
      ItemsParse(rest, parsed);
      assert ItemTexts(pieces) == ItemTexts(rest) && Ids(pieces) == Ids(rest);
  }

  lemma NoComma(p: Piece)
    requires WfPiece(p)
    ensures ',' !in PieceText(p)
  {
  }

  lemma HasItemCons(p: Piece, rest: seq<Piece>)
    ensures HasItem([p] + rest) <==> p.item.Some? || HasItem(rest)
  {
    var all := [p] + rest;
    if p.item.Some? {
      assert all[0].item.Some?;
    }
    if HasItem(rest) {
      var i :| 0 <= i < |rest| && rest[i].item.Some?;
      assert all[i + 1].item.Some?;
    }
  }

  lemma TokensCons(p: Piece, rest: seq<Piece>)
    ensures Texts([p] + rest) == [PieceText(p)] + Texts(rest)
    ensures var token := Strip(PieceText(p));
            Tokens(Texts([p] + rest)) == (if token == [] then [] else [token]) + Tokens(Texts(rest))
  {
    assert ([p] + rest)[1..] == rest;
    assert ([PieceText(p)] + Texts(rest))[1..] == Texts(rest);
  }

  /**
   Any list of ids and ascending ranges, with blanks around them and empty entries between them, parses to the
   concatenation of its ids, and without an issue exactly when no id repeats.
   */
  lemma PrintedSpecParses(pieces: seq<Piece>)
    requires WfPieces(pieces) && HasItem(pieces)
    ensures var r := ParseSpec(Print(pieces));
            && (r.issue.None? <==> NoRepeats(Ids(pieces)))
            && (r.issue.None? ==> r.ids == Ids(pieces))
            && (r.issue.Some? ==> r == Parsed(SortedSet(Ids(pieces)), Some(DuplicateLcore)))
  {
    TextsHaveNoComma(pieces);
    SplitUndoesJoin(Texts(pieces));
    TokensAreItems(pieces);
    ItemsParse(pieces, []);
    assert [] + Ids(pieces) == Ids(pieces);
  }

  // ----- the language -----

  lemma {:induction false} JoinUndoesSplit(s: string)
    ensures Split(s, ',') != [] && Join(Split(s, ',')) == s
    decreases |s|
  {
    var i := Find(s, ',');
    if i < |s| {
      var rest := Split(s[i + 1..], ',');
      JoinUndoesSplit(s[i + 1..]);
      JoinCons(s[..i], rest);
      assert s == s[..i] + "," + s[i + 1..];
      assert Split(s, ',') == [s[..i]] + rest;
    }
  }

  lemma JoinCons(first: string, rest: seq<string>)
    requires rest != []
    ensures Join([first] + rest) == first + "," + Join(rest)
  {
    assert ([first] + rest)[1..] == rest;
  }

  lemma {:induction false} StripLeftShape(s: string) returns (blanks: string)
    ensures Blanks(blanks) && s == blanks + StripLeft(s)
  {
    if s != [] && IsBlank(s[0]) {
      var rest := StripLeftShape(s[1..]);
      blanks := [s[0]] + rest;
    } else {
      blanks := [];
    }
  }

  lemma {:induction false} StripRightShape(s: string) returns (blanks: string)
    ensures Blanks(blanks) && s == StripRight(s) + blanks
  {
    if s != [] && IsBlank(s[|s| - 1]) {
      var n := |s| - 1;
      var rest := StripRightShape(s[..n]);
      blanks := rest + [s[n]];
    } else {
      blanks := [];
    }
  }

  /** A token without an issue is the text of an item with the same ids. */
  lemma TokenShape(t: string) returns (i: Item)
    requires ParseToken(t).issue.None?
    ensures WfItem(i) && ItemText(i) == t && ItemIds(i) == ParseToken(t).ids
  {
    var dash := Find(t, '-');
    if dash == |t| {
      i := One(t);
    } else {
      i := Range(t[..dash], t[dash + 1..]);
      assert t == t[..dash] + [t[dash]] + t[dash + 1..];
    }
  }

  lemma StripShape(part: string) returns (before: string, after: string)
    ensures Blanks(before) && Blanks(after) && part == before + Strip(part) + after
  {
    before := StripLeftShape(part);
    after := StripRightShape(StripLeft(part));
  }

  /** A token between blanks is a piece. */
  lemma TokenPiece(before: string, t: string, after: string) returns (p: Piece)
    requires Blanks(before) && Blanks(after) && (t == [] || ParseToken(t).issue.None?)
    ensures WfPiece(p) && PieceText(p) == before + t + after && (p.item.Some? <==> t != [])
  {
    if t == [] {
      p := Piece(before, None, after);
    } else {
      var i := TokenShape(t);
      p := Piece(before, Some(i), after);
    }
  }

  /** What stands between two commas, if its token is in order. */
  lemma PieceShape(part: string) returns (p: Piece)
    requires Strip(part) == [] || ParseToken(Strip(part)).issue.None?
    ensures WfPiece(p) && PieceText(p) == part && (p.item.Some? <==> Strip(part) != [])
  {
    var before, after := StripShape(part);
    p := TokenPiece(before, Strip(part), after);
  }

  /** Tokens that end without a spelling issue are all in order. */
  lemma {:induction false} PartsShape(parts: seq<string>, parsed: seq<nat>) returns (pieces: seq<Piece>)
    requires ParseTokens(Tokens(parts), parsed).issue.None?
    ensures WfPieces(pieces) && Texts(pieces) == parts
  {
    if parts == [] {
      pieces := [];
      return;
    }
    var token, rest := Strip(parts[0]), parts[1..];
    var next := parsed;
    if token == [] {
      assert Tokens(parts) == Tokens(rest);
    } else {
      assert Tokens(parts) == [token] + Tokens(rest);
      assert Tokens(parts)[1..] == Tokens(rest);
      next := parsed + ParseToken(token).ids;
    }
    var p := PieceShape(parts[0]);
    var more := PartsShape(rest, next);
    pieces := [p] + more;
    TokensCons(p, more);
    assert parts == [parts[0]] + rest;
  }

  ghost predicate Spelled(s: string, pieces: seq<Piece>, ids: seq<nat>) {
    WfPieces(pieces) && HasItem(pieces) && Print(pieces) == s && Ids(pieces) == ids && NoRepeats(ids)
  }

  /** A core list is accepted with given ids exactly when it prints items with these ids, none of them repeated. */
  lemma CoreListLanguage(s: string, ids: seq<nat>)
    ensures ParseSpec(s) == Parsed(ids, None) <==> exists pieces :: Spelled(s, pieces, ids)
  {
    if ParseSpec(s) == Parsed(ids, None) {
      JoinUndoesSplit(s);
      var pieces := PartsShape(Split(s, ','), []);
      TokensAreItems(pieces);
      PrintedSpecParses(pieces);
      assert Spelled(s, pieces, ids);
    }
    if pieces :| Spelled(s, pieces, ids) {
      PrintedSpecParses(pieces);
    }
  }

  lemma {:induction false} ParsedNotEmpty(tokens: seq<string>, parsed: seq<nat>)
    requires ParseTokens(tokens, parsed).issue.None? && (tokens != [] || parsed != [])
    ensures ParseTokens(tokens, parsed).ids != []
  {
    if tokens != [] {
      ParsedNotEmpty(tokens[1..], parsed + ParseToken(tokens[0]).ids);
    }
  }

  /** An accepted core list names at least one core. */
  lemma AcceptedHasIds(s: string)
    ensures ParseSpec(s).issue.None? ==> ParseSpec(s).ids != []
  {
    var tokens := Tokens(Split(s, ','));
    if ParseSpec(s).issue.None? {
      ParsedNotEmpty(tokens, []);
    }
  }
}

module RuntimePolicy {
  import opened JsonGrammar
  import opened Lcores

  const DEFAULT_LCORES := "1"
  const DEFAULT_BURST: nat := 32
  const DEFAULT_QUEUE: nat := 256
  const HUGEPAGE_SIZE: nat := 2
  const HUGEPAGES_FLOOR: nat := 256
  const MAX_LCORES: nat := 8
  const MAX_BURST: nat := 256
  const MAX_QUEUE: nat := 4096
  const MAX_MEMPOOL: nat := 65536
  const MAX_HUGEPAGES: nat := 1024
  const MIN_MEMPOOL: nat := 2048
  const HEADROOM: nat := 4
  const MBUF_BYTES: nat := 4096
  const OVERHEAD_MB: nat := 64

  type pos = n: nat | n > 0 witness 1

  /** What a topology asks for; a field left out is None. */
  datatype Request = Request(lcores: Option<string>, hugepagesMb: Option<pos>, burst: Option<pos>, rxQueue: Option<pos>,
                             txQueue: Option<pos>, mempool: Option<pos>)

  datatype Profile = Profile(lcores: string, lcoreCount: nat, hugepagesMb: nat, burst: nat, rxQueue: nat,
                             txQueue: nat, mempool: nat, portCount: nat)

  datatype Issue =
    | LcoreSpec(issue: LcoreIssue) | OversizedLcoreSet | OversizedRxQueue | OversizedTxQueue | OversizedBurst
    | BurstExceedsQueue | UndersizedMempool | OversizedMempool | InvalidHugepageMultiple | UndersizedHugepages
    | OversizedHugepages

  // ----- rounding -----

  function Pow2(k: nat): (p: nat)
    ensures p > 0
  {
    if k == 0 then 1 else 2 * Pow2(k - 1)
  }

  function BitLength(n: nat): (k: nat) {
    if n == 0 then 0 else 1 + BitLength(n / 2)
  }

  function RoundUpPow2(n: nat): (r: nat) {
    if n <= 1 then 1 else Pow2(BitLength(n - 1))
  }

  lemma {:induction false} BitLengthBounds(n: nat)
    ensures n < Pow2(BitLength(n))
    ensures n > 0 ==> Pow2(BitLength(n)) <= 2 * n
  {
    if n > 0 {
      BitLengthBounds(n / 2);
    }
  }

  lemma {:induction false} Pow2Grows(j: nat, k: nat)
    requires j <= k
    ensures Pow2(j) <= Pow2(k)
  {
    if j < k {
      Pow2Grows(j, k - 1);
    }
  }

  /** The result is the least power of two that is not below the argument. */
  lemma RoundUpIsLeast(n: nat, k: nat)
    ensures RoundUpPow2(n) >= n && exists j :: RoundUpPow2(n) == Pow2(j)
    ensures Pow2(k) >= n ==> Pow2(k) >= RoundUpPow2(n)
  {
    if n <= 1 {
      assert RoundUpPow2(n) == Pow2(0);
    } else {
      BitLengthBounds(n - 1);
      var b := BitLength(n - 1);
      if Pow2(k) >= n {
        if k < b {
          Pow2Grows(k, b - 1);
        } else {
          Pow2Grows(b, k);
        }
      }
    }
  }

  function CeilDiv(n: nat, d: nat): (q: nat)
    requires d > 0
    ensures q * d >= n && (q > 0 ==> (q - 1) * d < n)
  {
    (n + d - 1) / d
  }

  /** The least even number of megabytes for the mempool, above a floor. */
  function RecommendedHugepages(mempool: nat): (mb: nat) {
    var estimate := CeilDiv(mempool * MBUF_BYTES, 1048576);
    var least := if HUGEPAGES_FLOOR < OVERHEAD_MB + estimate then OVERHEAD_MB + estimate else HUGEPAGES_FLOOR;
    CeilDiv(least, HUGEPAGE_SIZE) * HUGEPAGE_SIZE
  }

  function RecommendedMempool(portCount: nat, rx: nat, tx: nat): (n: nat) {
    var need := portCount * (rx + tx) * HEADROOM;
    RoundUpPow2(if MIN_MEMPOOL < need then need else MIN_MEMPOOL)
  }

  // ----- deriving a profile -----

  function Or(o: Option<pos>, default: nat): (n: nat) {
    match o case Some(n) => n case None => default
  }

  function If(c: bool, issue: Issue): (issues: seq<Issue>) {
    if c then [issue] else []
  }

  function Resolved(r: Request, portCount: nat): (p: Profile) {
    var lcores := match r.lcores case Some(l) => (if l == "" then DEFAULT_LCORES else l) case None => DEFAULT_LCORES;
    var ids := ParseSpec(lcores).ids;
    var rx, tx := Or(r.rxQueue, DEFAULT_QUEUE), Or(r.txQueue, DEFAULT_QUEUE);
    var mempool := Or(r.mempool, RecommendedMempool(portCount, rx, tx));
    Profile(lcores, if ids == [] then 1 else |ids|, Or(r.hugepagesMb, RecommendedHugepages(mempool)),
            Or(r.burst, DEFAULT_BURST), rx, tx, mempool, portCount)
  }

  /** The issues of a resolved profile, in the order in which they are reported. */
  function Issues(p: Profile): (issues: seq<Issue>) {
    var spec := ParseSpec(p.lcores);
    var leastMempool := RecommendedMempool(p.portCount, p.rxQueue, p.txQueue);
    var leastPages := RecommendedHugepages(p.mempool);
    (match spec.issue case Some(i) => [LcoreSpec(i)] case None => [])
    + If(p.lcoreCount > MAX_LCORES, OversizedLcoreSet)
    + If(p.rxQueue > MAX_QUEUE, OversizedRxQueue)
    + If(p.txQueue > MAX_QUEUE, OversizedTxQueue)
    + If(p.burst > MAX_BURST, OversizedBurst)
    + If(p.burst > (if p.rxQueue < p.txQueue then p.rxQueue else p.txQueue), BurstExceedsQueue)
    + If(p.mempool < leastMempool, UndersizedMempool)
    + If(p.mempool > MAX_MEMPOOL, OversizedMempool)
    + If(p.hugepagesMb % HUGEPAGE_SIZE != 0, InvalidHugepageMultiple)
    + If(p.hugepagesMb < leastPages, UndersizedHugepages)
    + If(p.hugepagesMb > MAX_HUGEPAGES, OversizedHugepages)
  }

  /** What the result type itself insists on. */
  predicate Constructible(p: Profile) {
    p.lcores != "" && p.lcoreCount >= 1 && p.hugepagesMb >= 2 && p.hugepagesMb % 2 == 0 && p.burst >= 1
    && p.rxQueue >= 1 && p.txQueue >= 1 && p.mempool >= 1 && p.portCount >= 1
  }

  /** The profile of a request, or None when it is refused. */
  function Derive(r: Request, portCount: nat): (p: Option<Profile>) {
    var p := Resolved(r, portCount);
    if Constructible(p) && Issues(p) == [] then Some(p) else None
  }

  /** The envelope every profile is to stay in, stated without the rounding functions. */
  ghost predicate InEnvelope(p: Profile) {
    && p.portCount >= 1
    && ParseSpec(p.lcores).issue.None? && p.lcores != ""
    && 1 <= p.lcoreCount <= MAX_LCORES
    && 1 <= p.rxQueue <= MAX_QUEUE && 1 <= p.txQueue <= MAX_QUEUE
    && 1 <= p.burst <= MAX_BURST && p.burst <= p.rxQueue && p.burst <= p.txQueue
    && CoversQueues(p) && p.mempool <= MAX_MEMPOOL
    && p.hugepagesMb % 2 == 0 && HUGEPAGES_FLOOR <= p.hugepagesMb <= MAX_HUGEPAGES
    && (p.hugepagesMb - OVERHEAD_MB) * 1048576 >= p.mempool * MBUF_BYTES
  }

  /** Some power of two up to the mempool's size is enough for four times the descriptors of all queues. */
  ghost predicate CoversQueues(p: Profile) {
    exists k: nat :: MIN_MEMPOOL <= Pow2(k) <= p.mempool && p.portCount * (p.rxQueue + p.txQueue) * HEADROOM <= Pow2(k)
  }

  /** A mempool reaches the recommended size exactly when some power of two below it covers the queues. */
  lemma MempoolRule(p: Profile)
    ensures p.mempool >= RecommendedMempool(p.portCount, p.rxQueue, p.txQueue) <==> CoversQueues(p)
  {
    var need := p.portCount * (p.rxQueue + p.txQueue) * HEADROOM;
    var n := if MIN_MEMPOOL < need then need else MIN_MEMPOOL;
    RoundUpIsLeast(n, 0);
    var j :| RoundUpPow2(n) == Pow2(j);
    if CoversQueues(p) {
      var k: nat :| MIN_MEMPOOL <= Pow2(k) <= p.mempool && need <= Pow2(k);
      RoundUpIsLeast(n, k);
    }
  }

  lemma CeilRule(n: nat, d: nat, q: nat)
    requires d > 0
    ensures q >= CeilDiv(n, d) <==> q * d >= n
  {
    var c := CeilDiv(n, d);
    if q >= c {
      assert (q - c) * d >= 0;
      assert q * d == c * d + (q - c) * d;
    } else {
      assert (c - 1 - q) * d >= 0;
      assert (c - 1) * d == q * d + (c - 1 - q) * d;
    }
  }

  /** An even number of megabytes reaches the recommended one exactly when floor and mempool fit. */
  lemma HugepagesRule(mempool: nat, mb: nat)
    requires mb % 2 == 0
    ensures mb >= RecommendedHugepages(mempool) <==>
            mb >= HUGEPAGES_FLOOR && (mb - OVERHEAD_MB) * 1048576 >= mempool * MBUF_BYTES
  {
    var estimate := CeilDiv(mempool * MBUF_BYTES, 1048576);
    var least := if HUGEPAGES_FLOOR < OVERHEAD_MB + estimate then OVERHEAD_MB + estimate else HUGEPAGES_FLOOR;
    CeilRule(least, 2, mb / 2);
    if mb >= HUGEPAGES_FLOOR {
      CeilRule(mempool * MBUF_BYTES, 1048576, mb - OVERHEAD_MB);
    }
  }

  lemma NoIssues(p: Profile)
    ensures Issues(p) == [] <==>
            && ParseSpec(p.lcores).issue.None? && p.lcoreCount <= MAX_LCORES
            && p.rxQueue <= MAX_QUEUE && p.txQueue <= MAX_QUEUE && p.burst <= MAX_BURST
            && p.burst <= p.rxQueue && p.burst <= p.txQueue
            && RecommendedMempool(p.portCount, p.rxQueue, p.txQueue) <= p.mempool <= MAX_MEMPOOL
            && p.hugepagesMb % 2 == 0 && RecommendedHugepages(p.mempool) <= p.hugepagesMb <= MAX_HUGEPAGES
  {
  }

  /** A request is accepted exactly when the profile it resolves to stays in the envelope. */
  lemma AcceptedIffInEnvelope(r: Request, portCount: nat)
    ensures Derive(r, portCount).Some? <==> InEnvelope(Resolved(r, portCount))
  {
    var p := Resolved(r, portCount);
    NoIssues(p);
    MempoolRule(p);
    if p.hugepagesMb % 2 == 0 {
      HugepagesRule(p.mempool, p.hugepagesMb);
    }
  }

  /** A field that is given is the profile's field; one that is left out has its documented default. */
  lemma GivenFieldsStand(r: Request, portCount: nat)
    requires Derive(r, portCount).Some?
    ensures var p := Derive(r, portCount).value;
            && p.portCount == portCount
            && (r.lcores.Some? && r.lcores.value != "" ==> p.lcores == r.lcores.value)
            && (r.lcores.None? || r.lcores.value == "" ==> p.lcores == "1")
            && p.lcoreCount == |ParseSpec(p.lcores).ids|
            && p.burst == (if r.burst.Some? then r.burst.value else 32)
            && p.rxQueue == (if r.rxQueue.Some? then r.rxQueue.value else 256)
            && p.txQueue == (if r.txQueue.Some? then r.txQueue.value else 256)
            && (r.mempool.Some? ==> p.mempool == r.mempool.value)
            && (r.hugepagesMb.Some? ==> p.hugepagesMb == r.hugepagesMb.value)
  {
    NoIssues(Resolved(r, portCount));
    AcceptedHasIds(Resolved(r, portCount).lcores);
  }

  /** The request that spells out every field of a profile. */
  function AsRequest(p: Profile): (r: Request)
    requires Constructible(p)
  {
    Request(Some(p.lcores), Some(p.hugepagesMb), Some(p.burst), Some(p.rxQueue), Some(p.txQueue), Some(p.mempool))
  }

  /** Deriving from a derived profile changes nothing. */
  lemma DerivingIsAFixedPoint(r: Request, portCount: nat)
    requires Derive(r, portCount).Some?
    ensures var p := Derive(r, portCount).value;
            Constructible(p) && Derive(AsRequest(p), portCount) == Some(p)
  {
  }

  lemma Pow2Sixteen()
    ensures Pow2(16) == MAX_MEMPOOL && Pow2(11) == MIN_MEMPOOL
  {
    assert Pow2(4) == 16;
    assert Pow2(8) == 256;
    assert Pow2(11) == 2048;
    assert Pow2(16) == 65536;
  }

  /**
   With two ports and neither mempool nor hugepages given, every pair of queue sizes is accepted whose burst
   fits both queues, on any core list of at most eight cores.
   */
  lemma EveryQueuePairFits(r: Request)
    requires r.mempool.None? && r.hugepagesMb.None?
    requires var p := Resolved(r, 2);
             && p.rxQueue <= MAX_QUEUE && p.txQueue <= MAX_QUEUE
             && p.burst <= MAX_BURST && p.burst <= p.rxQueue && p.burst <= p.txQueue
             && ParseSpec(p.lcores).issue.None? && p.lcoreCount <= MAX_LCORES
    ensures Derive(r, 2) == Some(Resolved(r, 2))
    ensures var p := Resolved(r, 2); p.mempool == RecommendedMempool(2, p.rxQueue, p.txQueue) <= MAX_MEMPOOL
    ensures Resolved(r, 2).hugepagesMb <= 320
  {
    var p := Resolved(r, 2);
    var need := 2 * (p.rxQueue + p.txQueue) * HEADROOM;
    var n := if MIN_MEMPOOL < need then need else MIN_MEMPOOL;
    Pow2Sixteen();
    RoundUpIsLeast(n, 16);
    PagesOfRecommended(p.mempool);
    NoIssues(p);
  }

  lemma PagesOfRecommended(mempool: nat)
    requires mempool <= MAX_MEMPOOL
    ensures RecommendedHugepages(mempool) % 2 == 0 && 256 <= RecommendedHugepages(mempool) <= 320
  {
    HugepagesRule(mempool, 320);
  }

  /** The cap is met with equality by the largest queues. */
  lemma CapIsTight()
    ensures RecommendedMempool(2, MAX_QUEUE, MAX_QUEUE) == MAX_MEMPOOL
  {
    Pow2Sixteen();
    RoundUpIsLeast(65536, 16);
  }
}
