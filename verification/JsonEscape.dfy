/**
 The string escaper of dpdkd/src/json_proto.c, the exact size it needs, and the proof that the string
 scanner undoes it.
 */
module JsonEscape {
  import opened JsonGrammar
  import opened JsonScanner
  import opened RequestParser

  /** Five bytes are escaped; every other byte, control bytes included, stands for itself. */
  function EscapeCh(c: char): (ch: Ch) {
    match c
    case '\\' => Esc('\\')
    case '\"' => Esc('\"')
    case '\n' => Esc('n')
    case '\r' => Esc('r')
    case '\t' => Esc('t')
    case _ => Raw(c)
  }

  function EscapeBody(s: string): (b: Body)
    ensures |b| == |s|
  {
    seq(|s|, i requires 0 <= i < |s| => EscapeCh(s[i]))
  }

  /** The escaped text of a string. */
  function Escape(s: string): (t: string) {
    BodyOnto(EscapeBody(s), [])
  }

  /** Escaping writes a body of the grammar that means the string itself. */
  lemma EscapeMeans(s: string)
    ensures WfBody(EscapeBody(s)) && Decode(EscapeBody(s)) == s
  {
    assert forall i :: 0 <= i < |s| ==> WfCh(EscapeCh(s[i])) && Meaning(EscapeCh(s[i])) == s[i];
  }

  lemma EscapeStep(s: string, c: char)
    ensures Escape(s + [c]) == Escape(s) + ChOnto(EscapeCh(c), [])
  {
    assert EscapeBody(s + [c]) == EscapeBody(s) + [EscapeCh(c)];
    BodyOntoAppend(EscapeBody(s), EscapeCh(c));
  }

  lemma {:induction false} BodyOntoAppend(b: Body, ch: Ch)
    ensures BodyOnto(b + [ch], []) == BodyOnto(b, []) + ChOnto(ch, [])
  {
    if b == [] {
      assert b + [ch] == [ch];
    } else {
      assert (b + [ch])[1..] == b[1..] + [ch];
      BodyOntoAppend(b[1..], ch);
    }
  }

  lemma {:induction false} EscapeLength(s: string)
    ensures |s| <= |Escape(s)| <= 2 * |s|
  {
    if s != [] {
      var init := s[..|s| - 1];
      assert s == init + [s[|s| - 1]];
      EscapeStep(init, s[|s| - 1]);
      EscapeLength(init);
    }
  }

  lemma {:induction false} EscapeGrows(s: string, k: nat)
    requires k <= |s|
    ensures |Escape(s[..k])| <= |Escape(s)|
    decreases |s|
  {
    if k == |s| {
      assert s[..k] == s;
    } else {
      var init := s[..|s| - 1];
      assert s == init + [s[|s| - 1]];
      EscapeStep(init, s[|s| - 1]);
      assert init[..k] == s[..k];
      EscapeGrows(init, k);
    }
  }

  /** A string between quotes, as every renderer writes it. */
  function Quote(s: string): (t: string) {
    "\"" + Escape(s) + "\""
  }

  lemma QuoteIsQuoted(s: string, rest: string)
    ensures Quote(s) + rest == QuotedOnto(EscapeBody(s), rest)
  {
    BodyOntoIsConcat(EscapeBody(s), ['\"'] + rest);
    assert Quote(s) + rest == ['\"'] + (Escape(s) + (['\"'] + rest));
  }

  /** The string scanner undoes the escaper, for every string and every buffer the string fits in. */
  lemma ScanUndoesEscape(s: string, rest: string, capacity: nat)
    requires |s| < capacity
    ensures ScanString(Quote(s) + rest, Some(capacity)) == Read(s, rest)
  {
    EscapeMeans(s);
    QuoteIsQuoted(s, rest);
    StringScanned([], EscapeBody(s), rest, Some(capacity));
    assert [] + (Quote(s) + rest) == Quote(s) + rest;
  }

  /** The escaper never fails on a buffer of twice the length and a NUL, and the bound is tight. */
  lemma EscapeFits(s: string)
    ensures |Escape(s)| < 2 * |s| + 1
    ensures (forall i :: 0 <= i < |s| ==> s[i] == '\"') ==> |Escape(s)| == 2 * |s|
    decreases |s|
  {
    EscapeLength(s);
    if s != [] && forall i :: 0 <= i < |s| ==> s[i] == '\"' {
      var init := s[..|s| - 1];
      assert s == init + [s[|s| - 1]];
      EscapeStep(init, s[|s| - 1]);
      EscapeFits(init);
    }
  }

  /** Fails exactly when the escaped text and its NUL do not fit; otherwise stores both. */
  method EscapeString(input: string, buffer: array<char>) returns (ok: bool, outputLen: nat)
    requires '\0' in input
    modifies buffer
    ensures ok <==> |Escape(CString(input))| < buffer.Length
    ensures ok ==> outputLen == |Escape(CString(input))| && buffer[outputLen] == '\0'
    ensures ok ==> buffer[..outputLen] == Escape(CString(input))
  {
    var inPos, outPos := 0, 0;
    ghost var text := CString(input);
    CStringIsPrefix(input);
    while input[inPos] != '\0'
      invariant 0 <= inPos <= |text|
      invariant outPos == |Escape(text[..inPos])|
      invariant inPos == 0 || outPos < buffer.Length
      invariant outPos <= buffer.Length && buffer[..outPos] == Escape(text[..inPos])
      decreases |text| - inPos
    {
      var ch := input[inPos];
      EscapeStep(text[..inPos], ch);
      assert text[..inPos + 1] == text[..inPos] + [ch];
      EscapeGrows(text, inPos + 1);
      match EscapeCh(ch) {
        case Esc(letter) =>
          if outPos + 3 > buffer.Length {
            return false, 0;
          }
          buffer[outPos], buffer[outPos + 1] := '\\', letter;
          outPos := outPos + 2;
        case Raw(c) =>
          if outPos + 2 > buffer.Length {
            return false, 0;
          }
          buffer[outPos] := c;
          outPos := outPos + 1;
      }
      inPos := inPos + 1;
    }
    assert text[..inPos] == text;
    if buffer.Length == 0 {
      return false, 0;
    }
    buffer[outPos] := '\0';
    return true, outPos;
  }

  lemma {:induction false} CStringIsPrefix(s: string)
    requires '\0' in s
    ensures var n := |CString(s)|; n < |s| && s[n] == '\0' && CString(s) == s[..n]
    ensures forall i :: 0 <= i < |CString(s)| ==> s[i] != '\0'
  {
    if s[0] != '\0' {
      CStringIsPrefix(s[1..]);
      assert s[..|CString(s)|] == [s[0]] + s[1..][..|CString(s[1..])|];
    }
  }
}
