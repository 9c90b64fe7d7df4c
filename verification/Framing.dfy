/**
 The length-prefixed framing between controller and datapath, implemented once in C
 (dpdkd/src/json_proto.c) and once in Python (ctrld/pktlab_ctrld/dpdk_client/protocol.py).

 A socket delivers its bytes in arbitrary pieces; a run of a reader is a list of what each read returns.
 */
module Framing {
  import opened JsonGrammar

  const MAX_FRAME_SIZE: nat := 16384

  // ----- the wire format -----

  function Byte(n: nat): (c: char)
    ensures c as int == n % 256
  {
    (n % 256) as char
  }

  /** Four bytes, most significant first. */
  function Header(n: nat): (h: string)
    ensures |h| == 4
  {
    [Byte(n / 0x100_0000), Byte(n / 0x1_0000), Byte(n / 0x100), Byte(n)]
  }

  function HeaderValue(h: string): (n: nat)
    requires |h| == 4
  {
    h[0] as int * 0x100_0000 + h[1] as int * 0x1_0000 + h[2] as int * 0x100 + h[3] as int
  }

  lemma HeaderRoundTrip(n: nat)
    requires n < 0x1_0000_0000
    ensures HeaderValue(Header(n)) == n
  {
    var high, upper := n / 0x1_0000, n / 0x100;
    assert high == upper / 0x100 && n / 0x100_0000 == high / 0x100;
    assert high / 0x100 % 0x100 == high / 0x100;
  }

  /** The most significant byte comes first. */
  lemma HeaderIsBigEndian(a: nat, b: nat, c: nat, d: nat)
    requires a < 256 && b < 256 && c < 256 && d < 256
    ensures Header(((a * 256 + b) * 256 + c) * 256 + d) == [a as char, b as char, c as char, d as char]
    ensures HeaderValue([a as char, b as char, c as char, d as char]) == ((a * 256 + b) * 256 + c) * 256 + d
  {
    var n := ((a * 256 + b) * 256 + c) * 256 + d;
    assert n / 0x100 == (a * 256 + b) * 256 + c && n / 0x1_0000 == a * 256 + b && n / 0x100_0000 == a;
  }

  predicate GoodLength(n: nat) {
    0 < n < MAX_FRAME_SIZE
  }

  function Frame(payload: string): (f: string) {
    Header(|payload|) + payload
  }

  /** The frames of a list of payloads, followed by `rest`. */
  function FrameOnto(payloads: seq<string>, rest: string): (s: string) {
    if payloads == [] then rest else Frame(payloads[0]) + FrameOnto(payloads[1..], rest)
  }

  function FrameAll(payloads: seq<string>): (s: string) {
    FrameOnto(payloads, [])
  }

  // ----- decoding a byte stream -----

  datatype FrameResult = Got(payload: string, rest: string) | NoHeader | BadLength(length: nat) | Truncated

  function Deframe(s: string): (r: FrameResult)
    ensures r.Got? ==> |r.rest| < |s| && GoodLength(|r.payload|)
  {
    if |s| < 4 then NoHeader
    else
      var n := HeaderValue(s[..4]);
      if !GoodLength(n) then BadLength(n)
      else if |s| < 4 + n then Truncated
      else Got(s[4..4 + n], s[4 + n..])
  }

  /** All frames of a stream, up to the first that cannot be read. */
  function Frames(s: string): (r: (seq<string>, FrameResult))
    ensures !r.1.Got?
    decreases |s|
  {
    match Deframe(s)
    case Got(payload, rest) =>
      var (more, end) := Frames(rest);
      ([payload] + more, end)
    case other => ([], other)
  }

  lemma DeframeFrame(payload: string, rest: string)
    requires GoodLength(|payload|)
    ensures Deframe(Frame(payload) + rest) == Got(payload, rest)
  {
    var s := Frame(payload) + rest;
    assert s[..4] == Header(|payload|);
    HeaderRoundTrip(|payload|);
    assert s[4..4 + |payload|] == payload && s[4 + |payload|..] == rest;
  }

  lemma FramesStep(payload: string, rest: string)
    requires GoodLength(|payload|)
    ensures Frames(Frame(payload) + rest) == ([payload] + Frames(rest).0, Frames(rest).1)
  {
    DeframeFrame(payload, rest);
  }

  /** Frames come back as sent, and whatever follows them is read as if it stood alone. */
  lemma {:induction false} FramesRoundTrip(payloads: seq<string>, rest: string)
    requires forall i :: 0 <= i < |payloads| ==> GoodLength(|payloads[i]|)
    ensures Frames(FrameOnto(payloads, rest)).0 == payloads + Frames(rest).0
    ensures Frames(FrameOnto(payloads, rest)).1 == Frames(rest).1
  {
    if payloads == [] {
      assert payloads + Frames(rest).0 == Frames(rest).0;
    } else {
      FramesRoundTrip(payloads[1..], rest);
      FramesStep(payloads[0], FrameOnto(payloads[1..], rest));
      FirstAndOthers(payloads, Frames(rest).0);
    }
  }

  lemma FirstAndOthers(payloads: seq<string>, more: seq<string>)
    requires payloads != []
    ensures [payloads[0]] + (payloads[1..] + more) == payloads + more
  {
    assert payloads == [payloads[0]] + payloads[1..];
  }

  /** A stream of frames and nothing else gives back exactly those frames. */
  lemma FramesOnly(payloads: seq<string>)
    requires forall i :: 0 <= i < |payloads| ==> GoodLength(|payloads[i]|)
    ensures Frames(FrameAll(payloads)) == (payloads, NoHeader)
  {
    FramesRoundTrip(payloads, []);
    assert Frames([]) == ([], NoHeader);
    assert payloads + [] == payloads;
  }

  // ----- sockets -----

  /** What one system call reports: some bytes, an interruption to retry, or an error. */
  datatype Event = Data(bytes: string) | Interrupted | Failure

  datatype End = Eof | Broken

  /** The bytes that can still be read, and how the stream ends behind them. */
  function Bytes(events: seq<Event>): (s: string) {
    if events == [] || events[0].Failure? then []
    else (if events[0].Data? then events[0].bytes else []) + Bytes(events[1..])
  }

  function EndOf(events: seq<Event>): (e: End) {
    if events == [] then Eof else if events[0].Failure? then Broken else EndOf(events[1..])
  }

  predicate NoEmptyData(events: seq<Event>) {
    forall i :: 0 <= i < |events| && events[i].Data? ==> events[i].bytes != []
  }

  datatype ReadStatus = ReadOk(bytes: string) | ReadRetry | ReadEof | ReadError

  /** The receiving side of a connection. */
  class Receiver {
    var events: seq<Event>

    ghost predicate Valid()
      reads this
    {
      NoEmptyData(events)
    }

    constructor (events: seq<Event>)
      requires NoEmptyData(events)
      ensures Valid() && this.events == events
    {
      this.events := events;
    }

    /** One read of at most `n` bytes: a piece of the next data, never more than asked for. */
    method Read(n: nat) returns (r: ReadStatus)
      requires Valid() && n > 0
      modifies this
      ensures Valid()
      ensures match r
              case ReadOk(bytes) =>
                0 < |bytes| <= n && Bytes(old(events)) == bytes + Bytes(events) && EndOf(events) == EndOf(old(events))
              case ReadRetry =>
                Bytes(old(events)) == Bytes(events) && EndOf(events) == EndOf(old(events)) && |events| < |old(events)|
              case ReadEof => Bytes(old(events)) == [] && EndOf(old(events)) == Eof
              case ReadError => Bytes(old(events)) == [] && EndOf(old(events)) == Broken
    {
      if events == [] {
        return ReadEof;
      }
      match events[0] {
        case Failure => return ReadError;
        case Interrupted =>
          events := events[1..];
          return ReadRetry;
        case Data(bytes) =>
          if |bytes| <= n {
            events := events[1..];
            return ReadOk(bytes);
          }
          r := ReadOk(bytes[..n]);
          ghost var was := events;
          events := [Data(bytes[n..])] + events[1..];
          assert events[1..] == was[1..];
          assert bytes == bytes[..n] + bytes[n..];
      }
    }
  }

  datatype ReadResult = Exactly(bytes: string) | HitEof | HitError

  /** What reading exactly `n` bytes gives, whatever the pieces. */
  function ExactRead(s: string, end: End, n: nat): (r: ReadResult) {
    if |s| >= n then Exactly(s[..n]) else if end.Eof? then HitEof else HitError
  }

  /** `have` of a stream have been read, and `unread` is to come. */
  lemma Enough(all: string, have: string, unread: string, end: End)
    requires all == have + unread
    ensures ExactRead(all, end, |have|) == Exactly(have) && all[|have|..] == unread
  {
  }

  lemma Short(all: string, have: string, end: End, n: nat)
    requires all == have + [] && |have| < n
    ensures ExactRead(all, end, n) == if end.Eof? then HitEof else HitError
  {
  }

  /** The C loop: retries interruptions, stops at end of file or error. */
  method ReadExact(fd: Receiver, length: nat) returns (r: ReadResult)
    requires fd.Valid()
    modifies fd
    ensures fd.Valid()
    ensures r == ExactRead(old(Bytes(fd.events)), old(EndOf(fd.events)), length)
    ensures r.Exactly? ==>
              && Bytes(fd.events) == old(Bytes(fd.events))[length..]
              && EndOf(fd.events) == old(EndOf(fd.events))
  {
    var buffer := [];
    ghost var all, end := Bytes(fd.events), EndOf(fd.events);
    while |buffer| < length
      invariant fd.Valid() && |buffer| <= length
      invariant all == buffer + Bytes(fd.events) && EndOf(fd.events) == end
      decreases length - |buffer|, |fd.events|
    {
      ghost var unread := Bytes(fd.events);
      var status := fd.Read(length - |buffer|);
      match status {
        case ReadEof =>
          Short(all, buffer, end, length);
          return HitEof;
        case ReadError =>
          Short(all, buffer, end, length);
          return HitError;
        case ReadRetry =>
        case ReadOk(bytes) =>
          assert buffer + (bytes + Bytes(fd.events)) == (buffer + bytes) + Bytes(fd.events);
          buffer := buffer + bytes;
      }
    }
    Enough(all, buffer, Bytes(fd.events), end);
    return Exactly(buffer);
  }

  /** The Python loop counts what remains and joins the chunks; an error is raised as an exception. */
  method PyReadExact(sock: Receiver, size: nat) returns (r: ReadResult)
    requires sock.Valid()
    modifies sock
    ensures sock.Valid()
    ensures r == ExactRead(old(Bytes(sock.events)), old(EndOf(sock.events)), size)
    ensures r.Exactly? ==>
              && Bytes(sock.events) == old(Bytes(sock.events))[size..]
              && EndOf(sock.events) == old(EndOf(sock.events))
  {
    var chunks: seq<string> := [];
    var remaining := size;
    ghost var all, end := Bytes(sock.events), EndOf(sock.events);
    while remaining > 0
      invariant sock.Valid() && 0 <= remaining <= size
      invariant |Join(chunks)| == size - remaining
      invariant all == Join(chunks) + Bytes(sock.events) && EndOf(sock.events) == end
      decreases remaining, |sock.events|
    {
      var status := sock.Read(remaining);
      match status {
        case ReadEof =>
          Short(all, Join(chunks), end, size);
          return HitEof;
        case ReadError =>
          Short(all, Join(chunks), end, size);
          return HitError;
        case ReadRetry =>
        case ReadOk(chunk) =>
          JoinAppend(chunks, chunk);
          assert Join(chunks) + (chunk + Bytes(sock.events)) == (Join(chunks) + chunk) + Bytes(sock.events);
          chunks := chunks + [chunk];
          remaining := remaining - |chunk|;
      }
    }
    Enough(all, Join(chunks), Bytes(sock.events), end);
    return Exactly(Join(chunks));
  }

  function Join(chunks: seq<string>): (s: string) {
    if chunks == [] then [] else chunks[0] + Join(chunks[1..])
  }

  lemma {:induction false} JoinAppend(chunks: seq<string>, chunk: string)
    ensures Join(chunks + [chunk]) == Join(chunks) + chunk
  {
    if chunks == [] {
      assert chunks + [chunk] == [chunk];
    } else {
      assert (chunks + [chunk])[1..] == chunks[1..] + [chunk];
      JoinAppend(chunks[1..], chunk);
    }
  }

  datatype FrameStatus = FrameOk(payload: string) | FrameEof | FrameError

  /** The C reader: a missing header at end of file is a clean close, anything else that fails is an error. */
  function CFrame(s: string, end: End): (r: FrameStatus) {
    match Deframe(s)
    case Got(payload, _) => FrameOk(payload)
    case NoHeader => if end.Eof? then FrameEof else FrameError
    case _ => FrameError
  }

  method ReadFrame(fd: Receiver, bufferCap: nat) returns (r: FrameStatus)
    requires fd.Valid() && bufferCap == MAX_FRAME_SIZE
    modifies fd
    ensures fd.Valid()
    ensures r == CFrame(old(Bytes(fd.events)), old(EndOf(fd.events)))
    ensures r.FrameOk? ==>
              && Bytes(fd.events) == Deframe(old(Bytes(fd.events))).rest
              && EndOf(fd.events) == old(EndOf(fd.events))
  {
    ghost var all := Bytes(fd.events);
    var header := ReadExact(fd, 4);
    match header {
      case HitEof => return FrameEof;
      case HitError => return FrameError;
      case Exactly(bytes) =>
        var payloadLength := HeaderValue(bytes);
        if payloadLength == 0 || payloadLength >= bufferCap {
          return FrameError;
        }
        var payload := ReadExact(fd, payloadLength);
        if !payload.Exactly? {
          return FrameError;
        }
        assert all[4..][..payloadLength] == all[4..4 + payloadLength];
        assert all[4..][payloadLength..] == all[4 + payloadLength..];
        return FrameOk(payload.bytes);
    }
  }

  /** The Python reader raises in every case in which it does not return a payload. */
  method RecvFrame(sock: Receiver) returns (r: Option<string>)
    requires sock.Valid()
    modifies sock
    ensures sock.Valid()
    ensures match Deframe(old(Bytes(sock.events)))
            case Got(payload, rest) =>
              r == Some(payload) && Bytes(sock.events) == rest && EndOf(sock.events) == old(EndOf(sock.events))
            case _ => r == None
  {
    ghost var all := Bytes(sock.events);
    var header := PyReadExact(sock, 4);
    if !header.Exactly? {
      return None;
    }
    var payloadLength := HeaderValue(header.bytes);
    if payloadLength == 0 || payloadLength >= MAX_FRAME_SIZE {
      return None;
    }
    var payload := PyReadExact(sock, payloadLength);
    if !payload.Exactly? {
      return None;
    }
    assert all[4..][..payloadLength] == all[4..4 + payloadLength];
    assert all[4..][payloadLength..] == all[4 + payloadLength..];
    return Some(payload.bytes);
  }

  /** Of the frames of a stream, `got` have been read and the others are in `unread`. */
  ghost predicate Reading(all: string, got: seq<string>, unread: string) {
    Frames(all) == (got + Frames(unread).0, Frames(unread).1)
  }

  lemma ReadingStarts(payloads: seq<string>)
    requires forall i :: 0 <= i < |payloads| ==> GoodLength(|payloads[i]|)
    ensures Reading(FrameAll(payloads), [], FrameAll(payloads)) && Frames(FrameAll(payloads)) == (payloads, NoHeader)
  {
    FramesOnly(payloads);
    assert [] + payloads == payloads;
  }

  lemma ReadingStep(all: string, got: seq<string>, unread: string, payload: string, rest: string)
    requires Reading(all, got, unread) && Deframe(unread) == Got(payload, rest)
    ensures Reading(all, got + [payload], rest)
  {
    assert got + ([payload] + Frames(rest).0) == (got + [payload]) + Frames(rest).0;
  }

  lemma ReadingEnds(all: string, got: seq<string>, unread: string)
    requires Reading(all, got, unread) && !Deframe(unread).Got?
    ensures Frames(all).0 == got
  {
    assert got + [] == got;
  }

  /** However the stream is cut into reads, the C reader recovers exactly the frames that were sent. */
  method ReadAllFrames(fd: Receiver, ghost payloads: seq<string>) returns (got: seq<string>, last: FrameStatus)
    requires fd.Valid() && Bytes(fd.events) == FrameAll(payloads) && EndOf(fd.events) == Eof
    requires forall i :: 0 <= i < |payloads| ==> GoodLength(|payloads[i]|)
    modifies fd
    ensures got == payloads && last == FrameEof
  {
    got := [];
    ghost var all := Bytes(fd.events);
    ReadingStarts(payloads);
    while true
      invariant fd.Valid() && EndOf(fd.events) == Eof
      invariant Reading(all, got, Bytes(fd.events)) && Frames(all).1 == NoHeader && Frames(all).0 == payloads
      decreases |Bytes(fd.events)|
    {
      ghost var s := Bytes(fd.events);
      last := ReadFrame(fd, MAX_FRAME_SIZE);
      if !last.FrameOk? {
        ReadingEnds(all, got, s);
        return;
      }
      ReadingStep(all, got, s, last.payload, Bytes(fd.events));
      got := got + [last.payload];
    }
  }

  /** The same for the Python reader, which raises at the end of the stream. */
  method RecvAllFrames(sock: Receiver, ghost payloads: seq<string>) returns (got: seq<string>)
    requires sock.Valid() && Bytes(sock.events) == FrameAll(payloads)
    requires forall i :: 0 <= i < |payloads| ==> GoodLength(|payloads[i]|)
    modifies sock
    ensures got == payloads
  {
    got := [];
    ghost var all := Bytes(sock.events);
    ReadingStarts(payloads);
    while true
      invariant sock.Valid()
      invariant Reading(all, got, Bytes(sock.events)) && Frames(all).0 == payloads
      decreases |Bytes(sock.events)|
    {
      ghost var s := Bytes(sock.events);
      var payload := RecvFrame(sock);
      if payload.None? {
        ReadingEnds(all, got, s);
        return;
      }
      ReadingStep(all, got, s, payload.value, Bytes(sock.events));
      got := got + [payload.value];
    }
  }

  // ----- sending -----

  /** What one write reports: how many bytes it took, an interruption, or an error. */
  datatype WriteEvent = Took(count: nat) | WriteInterrupted | WriteFailure

  /** The sending side; `sent` is what has left. A list of writes that runs out is a broken connection. */
  class Sender {
    var writes: seq<WriteEvent>
    var sent: string

    ghost predicate Valid()
      reads this
    {
      forall i :: 0 <= i < |writes| && writes[i].Took? ==> writes[i].count > 0
    }

    constructor (writes: seq<WriteEvent>)
      requires forall i :: 0 <= i < |writes| && writes[i].Took? ==> writes[i].count > 0
      ensures Valid() && sent == []
    {
      this.writes := writes;
      sent := [];
    }

    /** One write: sends a non-empty prefix, or nothing and asks for a retry, or fails. */
    method Write(bytes: string) returns (taken: int)
      requires Valid() && bytes != []
      modifies this
      ensures Valid() && taken <= |bytes|
      ensures sent == old(sent) + if taken > 0 then bytes[..taken] else []
      ensures taken == 0 ==> |writes| < |old(writes)|
    {
      if writes == [] {
        return -1;
      }
      var w := writes[0];
      writes := writes[1..];
      match w {
        case WriteFailure => return -1;
        case WriteInterrupted => return 0;
        case Took(count) =>
          taken := if count < |bytes| then count else |bytes|;
          sent := sent + bytes[..taken];
      }
    }
  }

  method WriteExact(fd: Sender, bytes: string) returns (ok: bool)
    requires fd.Valid()
    modifies fd
    ensures fd.Valid()
    ensures ok ==> fd.sent == old(fd.sent) + bytes
    ensures !ok ==> exists k :: 0 <= k < |bytes| && fd.sent == old(fd.sent) + bytes[..k]
  {
    var total := 0;
    while total < |bytes|
      invariant fd.Valid() && 0 <= total <= |bytes|
      invariant fd.sent == old(fd.sent) + bytes[..total]
      decreases |bytes| - total, |fd.writes|
    {
      var written := fd.Write(bytes[total..]);
      if written < 0 {
        assert fd.sent == old(fd.sent) + bytes[..total];
        return false;
      }
      assert bytes[..total + written] == bytes[..total] + bytes[total..][..written];
      total := total + written;
    }
    assert bytes[..total] == bytes;
    return true;
  }

  /** Either the whole frame leaves, or the call fails and only a proper prefix has left. */
  method WriteFrame(fd: Sender, json: string) returns (ok: bool)
    requires fd.Valid()
    modifies fd
    ensures fd.Valid()
    ensures ok ==> fd.sent == old(fd.sent) + Frame(json) && 0 < |json| < 0x1_0000_0000
    ensures !ok ==> exists k :: 0 <= k < |Frame(json)| && fd.sent == old(fd.sent) + Frame(json)[..k]
  {
    ghost var before := fd.sent;
    if |json| == 0 || |json| > 0xFFFF_FFFF {
      assert before == before + Frame(json)[..0];
      return false;
    }
    ok := WriteExact(fd, Header(|json|));
    if !ok {
      ghost var k :| 0 <= k < 4 && fd.sent == before + Header(|json|)[..k];
      assert Frame(json)[..k] == Header(|json|)[..k];
      return;
    }
    ok := WriteExact(fd, json);
    if !ok {
      ghost var k :| 0 <= k < |json| && fd.sent == before + Header(|json|) + json[..k];
      assert Frame(json)[..4 + k] == Header(|json|) + json[..k];
      assert fd.sent == before + Frame(json)[..4 + k];
    } else {
      assert before + Header(|json|) + json == before + Frame(json);
    }
  }

  /** The Python sender frames a payload exactly when both readers would accept its length. */
  method FramePayload(payload: string) returns (r: Option<string>)
    ensures r.Some? <==> Deframe(Frame(payload)) == Got(payload, [])
    ensures r.Some? ==> r.value == Frame(payload)
  {
    if |payload| == 0 || |payload| >= MAX_FRAME_SIZE {
      return None;
    }
    DeframeFrame(payload, []);
    assert Frame(payload) + [] == Frame(payload);
    return Some(Header(|payload|) + payload);
  }
}
