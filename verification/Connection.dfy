/**
 The per-connection loop of dpdkd/src/ipc_server.c for any request handler: frames in, responses out.
 */
module Connection {
  import opened JsonGrammar
  import opened Framing

  /** A handler's next state and the response it renders, for a state, a frame and what it reads meanwhile. */
  type Handler<!S, !E> = (S, string, E) -> (S, Option<string>)

  /** The handler answers every frame and keeps `inv`; `ok` is what a response owes its frame. */
  ghost predicate Good<S(!new), E(!new)>(h: Handler<S, E>, inv: S -> bool, env: E -> bool,
                                         ok: (string, string) -> bool) {
    forall s, frame, e :: inv(s) && env(e) ==>
      inv(h(s, frame, e).0) && h(s, frame, e).1.Some? && ok(frame, h(s, frame, e).1.value)
  }

  /** The state after a list of frames, and the responses to them; `seen[i]` is what was read at frame `i`. */
  function Serve<S, E>(h: Handler<S, E>, s: S, frames: seq<string>, seen: nat -> E): (r: (S, seq<string>))
    decreases |frames|
  {
    if frames == [] then (s, [])
    else
      var n := |frames| - 1;
      var (mid, responses) := Serve(h, s, frames[..n], seen);
      var (last, r) := h(mid, frames[n], seen(n));
      (last, responses + if r.Some? then [r.value] else [])
  }

  lemma ServeStep<S, E>(h: Handler<S, E>, s: S, frames: seq<string>, frame: string, seen: nat -> E)
    ensures var (mid, responses) := Serve(h, s, frames, seen);
            var (last, r) := h(mid, frame, seen(|frames|));
            Serve(h, s, frames + [frame], seen) == (last, responses + if r.Some? then [r.value] else [])
  {
    assert (frames + [frame])[..|frames|] == frames;
  }

  /** Whatever the frames, each gets exactly one response, in order, and the invariant holds throughout. */
  lemma {:induction false} OneResponsePerFrame<S(!new), E(!new)>(h: Handler<S, E>, inv: S -> bool, env: E -> bool,
      ok: (string, string) -> bool, s: S, frames: seq<string>, seen: nat -> E)
    requires Good(h, inv, env, ok) && inv(s) && forall i: nat :: env(seen(i))
    ensures var (s', responses) := Serve(h, s, frames, seen);
            && inv(s') && |responses| == |frames|
            && forall i :: 0 <= i < |frames| ==> ok(frames[i], responses[i])
    decreases |frames|
  {
    if frames != [] {
      var n := |frames| - 1;
      OneResponsePerFrame(h, inv, env, ok, s, frames[..n], seen);
      var (mid, responses) := Serve(h, s, frames[..n], seen);
      assert inv(mid) && env(seen(n));
    }
  }

  lemma {:induction false} FrameAllAppend(payloads: seq<string>, p: string)
    ensures FrameAll(payloads + [p]) == FrameAll(payloads) + Frame(p)
  {
    if payloads == [] {
      assert payloads + [p] == [p];
      assert Frame(p) + [] == Frame(p);
    } else {
      assert (payloads + [p])[1..] == payloads[1..] + [p];
      FrameAllAppend(payloads[1..], p);
      var a, b, c := Frame(payloads[0]), FrameAll(payloads[1..]), Frame(p);
      assert a + (b + c) == (a + b) + c;
    }
  }

  datatype Closed = CleanEnd | ReadFailed | HandlerFailed | WriteFailed

  /** What is left of a stream behind its frames. */
  function Rest(s: string): (r: string)
    decreases |s|
  {
    match Deframe(s)
    case Got(_, rest) => Rest(rest)
    case _ => s
  }

  lemma FramesUnfold(s: string)
    ensures match Deframe(s)
            case Got(payload, rest) => Frames(s).0 == [payload] + Frames(rest).0 && Rest(s) == Rest(rest)
            case _ => Frames(s).0 == [] && Rest(s) == s
  {
  }

  /** A proper part of the framed response, possibly none of it, was added to what had been sent. */
  ghost predicate PartSent(before: string, response: string, sent: string) {
    exists k :: 0 <= k < |Frame(response)| && sent == before + Frame(response)[..k]
  }

  /** Handles one frame and sends its response, if there is one. */
  method Exchange<S, E>(tx: Sender, h: Handler<S, E>, s: S, frame: string, e: E)
    returns (s': S, why: Option<Closed>, ghost response: Option<string>)
    requires tx.Valid()
    modifies tx
    ensures tx.Valid() && (s', response) == h(s, frame, e)
    ensures why == None || why == Some(HandlerFailed) || why == Some(WriteFailed)
    ensures why == Some(HandlerFailed) <==> response.None?
    ensures why == Some(HandlerFailed) ==> tx.sent == old(tx.sent)
    ensures why == None ==> tx.sent == old(tx.sent) + Frame(response.value)
    ensures why == Some(WriteFailed) ==> PartSent(old(tx.sent), response.value, tx.sent)
  {
    var (next, r) := h(s, frame, e);
    s', response := next, r;
    if r.None? {
      return s', Some(HandlerFailed), response;
    }
    var ok := WriteFrame(tx, r.value);
    why := if ok then None else Some(WriteFailed);
  }

  /** How a connection that carried `all` ended after `taken` frames, with `sent` on the wire. */
  ghost predicate Handled<S, E>(h: Handler<S, E>, s: S, seen: nat -> E, all: string, end: End,
                                s': S, why: Closed, taken: nat, sent: string)
  {
    var frames := Frames(all).0;
    && taken <= |frames| && s' == Serve(h, s, frames[..taken], seen).0
    && (why.CleanEnd? ==> taken == |frames| && CFrame(Rest(all), end) == FrameEof)
    && (why.ReadFailed? ==> taken == |frames| && CFrame(Rest(all), end) == FrameError)
    && (why.HandlerFailed? || why.WriteFailed? ==> taken > 0)
    && (why.HandlerFailed? ==> |Serve(h, s, frames[..taken], seen).1| < taken)
    && Sent(why, Serve(h, s, frames[..taken], seen).1, sent)
  }

  /** On the wire: all responses, framed and in order; after a failed write, the last one only in part. */
  ghost predicate Sent(why: Closed, responses: seq<string>, sent: string) {
    if why.WriteFailed? then
      responses != [] && PartSent(FrameAll(responses[..|responses| - 1]), responses[|responses| - 1], sent)
    else sent == FrameAll(responses)
  }

  /** A connection in progress: `done` is handled, `unread` is to come, and `sent` answers what is done. */
  ghost predicate InProgress<S, E>(h: Handler<S, E>, s: S, seen: nat -> E, all: string, unread: string,
                                   s': S, done: seq<string>, responses: seq<string>)
  {
    && Frames(all).0 == done + Frames(unread).0 && Rest(all) == Rest(unread)
    && Serve(h, s, done, seen) == (s', responses)
  }

  lemma StreamEnds<S, E>(h: Handler<S, E>, s: S, seen: nat -> E, all: string, unread: string, end: End,
                         s': S, done: seq<string>, responses: seq<string>, status: FrameStatus)
    requires InProgress(h, s, seen, all, unread, s', done, responses)
    requires status == CFrame(unread, end) && !status.FrameOk?
    ensures var why := if status.FrameEof? then CleanEnd else ReadFailed;
            Handled(h, s, seen, all, end, s', why, |done|, FrameAll(responses))
  {
    FramesUnfold(unread);
    assert Frames(all).0[..|done|] == done;
  }

  lemma FrameTaken<S, E>(h: Handler<S, E>, s: S, seen: nat -> E, all: string, unread: string, rest: string,
                         s': S, done: seq<string>, responses: seq<string>, frame: string)
    requires InProgress(h, s, seen, all, unread, s', done, responses) && Deframe(unread) == Got(frame, rest)
    ensures var (next, r) := h(s', frame, seen(|done|));
            && InProgress(h, s, seen, all, rest, next, done + [frame], responses + if r.Some? then [r.value] else [])
            && |done| < |Frames(all).0| && Frames(all).0[..|done|] == done
            && Frames(all).0[..|done| + 1] == done + [frame]
  {
    FramesUnfold(unread);
    ServeStep(h, s, done, frame, seen);
    assert done + ([frame] + Frames(rest).0) == (done + [frame]) + Frames(rest).0;
  }

  /** An exchange that closes the connection. */
  lemma ClosedEarly<S, E>(h: Handler<S, E>, s: S, seen: nat -> E, all: string, end: End, s': S, done: seq<string>,
                          responses: seq<string>, frame: string, response: Option<string>, why: Closed, sent: string)
    requires |done| == |responses| < |Frames(all).0| && Frames(all).0[..|done| + 1] == done + [frame]
    requires Serve(h, s, done + [frame], seen) == (s', responses + if response.Some? then [response.value] else [])
    requires why.HandlerFailed? && response.None? ==> sent == FrameAll(responses)
    requires why.WriteFailed? && response.Some? ==> PartSent(FrameAll(responses), response.value, sent)
    requires (why.HandlerFailed? && response.None?) || (why.WriteFailed? && response.Some?)
    ensures Handled(h, s, seen, all, end, s', why, |done| + 1, sent)
  {
    assert responses + [] == responses;
    if response.Some? {
      assert (responses + [response.value])[..|responses|] == responses;
    }
  }

  /**
   The connection loop: answers the frames of the stream one by one until the stream ends, the handler has
   no response, or a write fails. Everything sent is whole responses to the `taken` frames, in order, except
   that a failed write may leave a part of the last one behind.
   */
  method HandleClient<S, E>(rx: Receiver, tx: Sender, h: Handler<S, E>, s: S, seen: nat -> E)
    returns (s': S, why: Closed, taken: nat)
    requires rx.Valid() && tx.Valid() && tx.sent == []
    modifies rx, tx
    ensures Handled(h, s, seen, old(Bytes(rx.events)), old(EndOf(rx.events)), s', why, taken, tx.sent)
  {
    ghost var all, end := Bytes(rx.events), EndOf(rx.events);
    ghost var done, responses := [], [];
    s', taken := s, 0;
    assert [] + Frames(all).0 == Frames(all).0;
    while true
      invariant rx.Valid() && tx.Valid() && taken == |done| == |responses| && EndOf(rx.events) == end
      invariant InProgress(h, s, seen, all, Bytes(rx.events), s', done, responses)
      invariant tx.sent == FrameAll(responses)
      decreases |Bytes(rx.events)|
    {
      ghost var unread := Bytes(rx.events);
      var status := ReadFrame(rx, MAX_FRAME_SIZE);
      if !status.FrameOk? {
        StreamEnds(h, s, seen, all, unread, end, s', done, responses, status);
        return s', if status.FrameEof? then CleanEnd else ReadFailed, taken;
      }
      FrameTaken(h, s, seen, all, unread, Bytes(rx.events), s', done, responses, status.payload);
      var closed;
      s', closed, responses := Answer(tx, h, s, s', seen, all, end, done, responses, status.payload, taken);
      if closed.Some? {
        return s', closed.value, taken + 1;
      }
      taken, done := taken + 1, done + [status.payload];
    }
  }

  /** One exchange of a connection that began in `s0`: it goes on with one more response, or ends here. */
  method Answer<S, E>(tx: Sender, h: Handler<S, E>, ghost s0: S, s: S, seen: nat -> E, ghost all: string,
                      ghost end: End, ghost done: seq<string>, ghost responses: seq<string>, frame: string,
                      taken: nat)
    returns (s': S, closed: Option<Closed>, ghost responses': seq<string>)
    requires tx.Valid() && tx.sent == FrameAll(responses) && taken == |done| == |responses| < |Frames(all).0|
    requires Frames(all).0[..|done| + 1] == done + [frame]
    requires var (next, r) := h(s, frame, seen(|done|));
             Serve(h, s0, done + [frame], seen) == (next, responses + if r.Some? then [r.value] else [])
    modifies tx
    ensures tx.Valid() && s' == h(s, frame, seen(|done|)).0
    ensures closed.Some? ==> Handled(h, s0, seen, all, end, s', closed.value, |done| + 1, tx.sent)
    ensures closed.None? ==>
              && tx.sent == FrameAll(responses') && |responses'| == |done| + 1
              && Serve(h, s0, done + [frame], seen) == (s', responses')
  {
    ghost var response;
    s', closed, response := Exchange(tx, h, s, frame, seen(taken));
    responses' := responses;
    if closed.Some? {
      ClosedEarly(h, s0, seen, all, end, s', done, responses, frame, response, closed.value, tx.sent);
    } else {
      FrameAllAppend(responses, response.value);
      responses' := responses + [response.value];
    }
  }

  // ----- what the other end reads -----

  /** A proper part of a frame holds no frame. */
  lemma PartIsNoFrame(p: string, k: nat)
    requires GoodLength(|p|) && k < |Frame(p)|
    ensures Frames(Frame(p)[..k]).0 == []
  {
    DeframeFrame(p, []);
    assert Frame(p) + [] == Frame(p);
    if k >= 4 {
      assert Frame(p)[..k][..4] == Frame(p)[..4];
    }
  }

  lemma {:induction false} OntoIsConcat(payloads: seq<string>, rest: string)
    ensures FrameOnto(payloads, rest) == FrameAll(payloads) + rest
  {
    if payloads == [] {
      assert FrameAll(payloads) + rest == rest;
    } else {
      OntoIsConcat(payloads[1..], rest);
      var first, more := Frame(payloads[0]), FrameAll(payloads[1..]);
      assert first + (more + rest) == (first + more) + rest;
    }
  }

  /** The other end recovers exactly the responses that were sent completely. */
  lemma ResponsesRecovered(why: Closed, responses: seq<string>, sent: string)
    requires Sent(why, responses, sent) && forall i :: 0 <= i < |responses| ==> GoodLength(|responses[i]|)
    ensures Frames(sent).0 == if why.WriteFailed? then responses[..|responses| - 1] else responses
  {
    if why.WriteFailed? {
      var n := |responses| - 1;
      var whole, last := responses[..n], responses[n];
      var k :| 0 <= k < |Frame(last)| && sent == FrameAll(whole) + Frame(last)[..k];
      OntoIsConcat(whole, Frame(last)[..k]);
      FramesRoundTrip(whole, Frame(last)[..k]);
      PartIsNoFrame(last, k);
      assert whole + [] == whole;
    } else {
      FramesOnly(responses);
    }
  }
}
