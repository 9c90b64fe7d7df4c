/**
 One forwarding burst: the packet parser (dpdkd/src/parser.c) as the filter, the in-place compaction of
 dpdkd/src/datapath.c and the hand-off of dpdkd/src/actions.c.
 */
module Burst {
  import opened JsonGrammar
  import opened Responses

  newtype byte = x: int | 0 <= x < 256

  const MAX_BURST: nat := 256

  // ----- the parser -----

  datatype Meta = Meta(etherType: nat, l4Proto: nat, srcIp: nat, dstIp: nat, srcPort: nat, dstPort: nat, pktLen: nat)

  function Be16(p: seq<byte>, at: nat): (n: nat)
    requires at + 2 <= |p|
  {
    p[at] as int * 256 + p[at + 1] as int
  }

  function Be32(p: seq<byte>, at: nat): (n: nat)
    requires at + 4 <= |p|
  {
    Be16(p, at) * 65536 + Be16(p, at + 2)
  }

  const ETHER_HEADER: nat := 14
  const IPV4_HEADER: nat := 20
  const TCP_HEADER: nat := 20
  const UDP_HEADER: nat := 8

  /** The header fields of a packet, or None when a header it announces is missing or malformed. */
  function ParsePacket(p: seq<byte>): (m: Option<Meta>) {
    var len := if |p| > 65535 then 65535 else |p|;
    if |p| < ETHER_HEADER then None
    else if Be16(p, 12) != 0x0800 then Some(Meta(Be16(p, 12), 0, 0, 0, 0, 0, len))
    else if |p| < ETHER_HEADER + IPV4_HEADER then None
    else
      var version, ihl := p[14] as int / 16, p[14] as int % 16;
      if version != 4 || ihl < 5 then None
      else
        var proto, l4 := p[23] as int, ETHER_HEADER + 4 * ihl;
        var m := Meta(0x0800, proto, Be32(p, 26), Be32(p, 30), 0, 0, len);
        var need := if proto == 6 then TCP_HEADER else UDP_HEADER;
        if proto != 6 && proto != 17 then Some(m)
        else if |p| < l4 + need then None
        else Some(m.(srcPort := Be16(p, l4), dstPort := Be16(p, l4 + 2)))
  }

  /** More bytes behind a packet never turn a success into a failure, nor change a header field. */
  lemma LongerStillParses(p: seq<byte>, tail: seq<byte>)
    requires ParsePacket(p).Some?
    ensures ParsePacket(p + tail).Some?
    ensures ParsePacket(p + tail).value.(pktLen := 0) == ParsePacket(p).value.(pktLen := 0)
  {
  }

  function Bytes16(n: nat): (b: seq<byte>)
    requires n < 65536
    ensures |b| == 2
  {
    [(n / 256) as byte, (n % 256) as byte]
  }

  function Bytes32(n: nat): (b: seq<byte>)
    requires n < 0x1_0000_0000
    ensures |b| == 4
  {
    Bytes16(n / 65536) + Bytes16(n % 65536)
  }

  /**
   An IPv4 packet laid out as in section 3.1 of RFC 791, behind an Ethernet header and in front of two ports as in
   section 3.1 of RFC 9293: `macs` 12 bytes, `middle` the 8 bytes from type of service to time to live.
   */
  function Ipv4Packet(macs: seq<byte>, middle: seq<byte>, checksum: seq<byte>, options: seq<byte>, tail: seq<byte>,
                      m: Meta): (p: seq<byte>)
    requires WfIpv4(macs, middle, checksum, options, m)
  {
    macs + Bytes16(0x0800) + [(4 * 16 + 5 + |options| / 4) as byte] + middle + [m.l4Proto as byte] + checksum
    + Bytes32(m.srcIp) + Bytes32(m.dstIp) + options + Bytes16(m.srcPort) + Bytes16(m.dstPort) + tail
  }

  predicate WfIpv4(macs: seq<byte>, middle: seq<byte>, checksum: seq<byte>, options: seq<byte>, m: Meta) {
    && |macs| == 12 && |middle| == 8 && |checksum| == 2 && |options| <= 40 && |options| % 4 == 0
    && m.l4Proto < 256 && m.srcIp < 0x1_0000_0000 && m.dstIp < 0x1_0000_0000 && m.srcPort < 65536 && m.dstPort < 65536
  }

  lemma Slice16(p: seq<byte>, at: nat, n: nat)
    requires n < 65536 && at + 2 <= |p| && p[at..at + 2] == Bytes16(n)
    ensures Be16(p, at) == n
  {
    assert p[at..at + 2][0] == p[at] && p[at..at + 2][1] == p[at + 1];
  }

  lemma Slice32(p: seq<byte>, at: nat, n: nat)
    requires n < 0x1_0000_0000 && at + 4 <= |p| && p[at..at + 4] == Bytes32(n)
    ensures Be32(p, at) == n
  {
    assert p[at..at + 2] == p[at..at + 4][..2] == Bytes16(n / 65536);
    assert p[at + 2..at + 4] == p[at..at + 4][2..] == Bytes16(n % 65536);
    Slice16(p, at, n / 65536);
    Slice16(p, at + 2, n % 65536);
  }

  /** Where the fields of a packet lie. */
  lemma Layout(macs: seq<byte>, middle: seq<byte>, checksum: seq<byte>, options: seq<byte>, tail: seq<byte>, m: Meta)
    requires WfIpv4(macs, middle, checksum, options, m)
    ensures var p := Ipv4Packet(macs, middle, checksum, options, tail, m);
            var l4 := 34 + |options|;
            && |p| == l4 + 4 + |tail| && p[12..14] == Bytes16(0x0800)
            && p[14] as int == 69 + |options| / 4 && p[23] as int == m.l4Proto
            && p[26..30] == Bytes32(m.srcIp) && p[30..34] == Bytes32(m.dstIp)
            && p[l4..l4 + 2] == Bytes16(m.srcPort) && p[l4 + 2..l4 + 4] == Bytes16(m.dstPort)
  {
  }

  /** A TCP or UDP packet long enough for its header is read back field by field. */
  lemma PacketFieldsReadBack(macs: seq<byte>, middle: seq<byte>, checksum: seq<byte>, options: seq<byte>,
                             tail: seq<byte>, m: Meta)
    requires WfIpv4(macs, middle, checksum, options, m) && m.etherType == 0x0800
    requires (m.l4Proto == 6 && |tail| >= 16) || (m.l4Proto == 17 && |tail| >= 4)
    ensures var p := Ipv4Packet(macs, middle, checksum, options, tail, m);
            ParsePacket(p) == Some(m.(pktLen := if |p| > 65535 then 65535 else |p|))
  {
    var p := Ipv4Packet(macs, middle, checksum, options, tail, m);
    var l4 := 34 + |options|;
    Layout(macs, middle, checksum, options, tail, m);
    Slice16(p, 12, 0x0800);
    Slice32(p, 26, m.srcIp);
    Slice32(p, 30, m.dstIp);
    Slice16(p, l4, m.srcPort);
    Slice16(p, l4 + 2, m.dstPort);
  }

  /** A packet of any other EtherType passes, with that type and no further fields. */
  lemma OtherTypesPass(macs: seq<byte>, etherType: nat, tail: seq<byte>)
    requires |macs| == 12 && etherType < 65536 && etherType != 0x0800
    ensures var p := macs + Bytes16(etherType) + tail;
            ParsePacket(p) == Some(Meta(etherType, 0, 0, 0, 0, 0, if |p| > 65535 then 65535 else |p|))
  {
    var p := macs + Bytes16(etherType) + tail;
    assert p[12..14] == Bytes16(etherType);
    Slice16(p, 12, etherType);
  }

  /** The Ethernet header and the fixed part of an IPv4 header of `ihl` words. */
  function Ipv4Start(macs: seq<byte>, ihl: nat, middle: seq<byte>, checksum: seq<byte>, m: Meta): (p: seq<byte>)
    requires WfIpv4(macs, middle, checksum, [], m) && 5 <= ihl < 16
    ensures |p| == 34
  {
    macs + Bytes16(0x0800) + [(4 * 16 + ihl) as byte] + middle + [m.l4Proto as byte] + checksum
    + Bytes32(m.srcIp) + Bytes32(m.dstIp)
  }

  /** An IPv4 packet of any protocol but TCP and UDP passes, with its addresses and without ports. */
  lemma OtherProtocolsPass(macs: seq<byte>, ihl: nat, middle: seq<byte>, checksum: seq<byte>, m: Meta, tail: seq<byte>)
    requires WfIpv4(macs, middle, checksum, [], m) && 5 <= ihl < 16 && m.l4Proto != 6 && m.l4Proto != 17
    ensures var p := Ipv4Start(macs, ihl, middle, checksum, m) + tail;
            ParsePacket(p) == Some(Meta(0x0800, m.l4Proto, m.srcIp, m.dstIp, 0, 0, if |p| > 65535 then 65535 else |p|))
  {
    var p := Ipv4Start(macs, ihl, middle, checksum, m) + tail;
    assert p[12..14] == Bytes16(0x0800) && p[14] as int == 64 + ihl && p[23] as int == m.l4Proto;
    assert p[26..30] == Bytes32(m.srcIp) && p[30..34] == Bytes32(m.dstIp);
    Slice16(p, 12, 0x0800);
    Slice32(p, 26, m.srcIp);
    Slice32(p, 30, m.dstIp);
  }

  /** Too short for Ethernet; or IPv4 and too short, of another version, with a short header, or without its ports. */
  predicate Refused(p: seq<byte>) {
    || |p| < 14
    || (p[12] == 8 && p[13] == 0 && (|p| < 34 || p[14] as int / 16 != 4 || p[14] as int % 16 < 5 || PortsMissing(p)))
  }

  predicate PortsMissing(p: seq<byte>)
    requires |p| >= 34
  {
    var l4 := 14 + 4 * (p[14] as int % 16);
    (p[23] == 6 && |p| < l4 + 20) || (p[23] == 17 && |p| < l4 + 8)
  }

  /** Those are exactly the packets that do not parse. */
  lemma RefusedExactly(p: seq<byte>)
    ensures ParsePacket(p).None? <==> Refused(p)
  {
  }

  // ----- packets and their owners -----

  /** A packet buffer; `id` tells two buffers with the same bytes apart. */
  datatype Mbuf = Mbuf(id: nat, data: seq<byte>)

  predicate Parses(m: Mbuf) {
    ParsePacket(m.data).Some?
  }

  /** The packets that parse, in order. */
  function Good(rx: seq<Mbuf>): (good: seq<Mbuf>) {
    if rx == [] then [] else
      var m := rx[|rx| - 1];
      Good(rx[..|rx| - 1]) + if Parses(m) then [m] else []
  }

  function Unparsed(rx: seq<Mbuf>): (bad: seq<Mbuf>) {
    if rx == [] then [] else
      var m := rx[|rx| - 1];
      Unparsed(rx[..|rx| - 1]) + if Parses(m) then [] else [m]
  }

  lemma {:induction false} GoodOrUnparsed(rx: seq<Mbuf>)
    ensures |Good(rx)| + |Unparsed(rx)| == |rx|
    ensures multiset(Good(rx)) + multiset(Unparsed(rx)) == multiset(rx)
  {
    if rx != [] {
      var n := |rx| - 1;
      GoodOrUnparsed(rx[..n]);
      OneMore(Good(rx[..n]), Unparsed(rx[..n]), rx[..n], rx[n]);
      assert rx == rx[..n] + [rx[n]];
    }
  }

  lemma OneMore(good: seq<Mbuf>, bad: seq<Mbuf>, rx: seq<Mbuf>, m: Mbuf)
    requires multiset(good) + multiset(bad) == multiset(rx)
    ensures multiset(good + [m]) + multiset(bad + []) == multiset(rx + [m])
    ensures multiset(good + []) + multiset(bad + [m]) == multiset(rx + [m])
  {
    assert good + [] == good && bad + [] == bad;
  }

  /** The forwarded candidates are exactly the received packets that are not refused. */
  lemma {:induction false} GoodExactly(rx: seq<Mbuf>, m: Mbuf)
    ensures m in Good(rx) <==> m in rx && !Refused(m.data)
    ensures m in Unparsed(rx) <==> m in rx && Refused(m.data)
  {
    if rx != [] {
      var n := |rx| - 1;
      GoodExactly(rx[..n], m);
      RefusedExactly(rx[n].data);
      assert rx == rx[..n] + [rx[n]];
    }
  }

  /** What became of a burst, and what it adds to the counters. */
  datatype Outcome = Outcome(transmitted: seq<Mbuf>, freed: seq<Mbuf>, delta: Stats)

  /** What a burst must amount to when the device takes the first `sent` candidates. */
  ghost predicate Forwarded(rx: seq<Mbuf>, sent: nat, o: Outcome) {
    var good, bad := Good(rx), Unparsed(rx);
    && sent <= |good|
    && o.transmitted == good[..sent]
    && o.freed == bad + good[sent..]
    && o.delta == Stats(|rx|, sent, |bad| + (|good| - sent), |bad|, 0, 1, if good == [] then 0 else 1, |good| - sent)
  }

  /** Every received packet is either transmitted or freed, once, and the counters balance. */
  lemma BurstConserves(rx: seq<Mbuf>, sent: nat, o: Outcome)
    requires Forwarded(rx, sent, o)
    ensures multiset(o.transmitted) + multiset(o.freed) == multiset(rx)
    ensures o.delta.rxPackets == o.delta.txPackets + o.delta.dropPackets
    ensures o.delta.dropPackets == o.delta.dropParseErrors + o.delta.unsentPackets
    ensures o.delta.rxPackets == |rx| && o.delta.txPackets == |o.transmitted| && o.delta.dropPackets == |o.freed|
    ensures rx != [] ==> BurstDelta(o.delta) || |rx| > MAX_BURST
  {
    GoodOrUnparsed(rx);
    HandedOver(Good(rx), Unparsed(rx), sent);
  }

  lemma HandedOver(good: seq<Mbuf>, bad: seq<Mbuf>, sent: nat)
    requires sent <= |good|
    ensures multiset(good[..sent]) + multiset(bad + good[sent..]) == multiset(good) + multiset(bad)
  {
    assert good == good[..sent] + good[sent..];
  }

  /** With distinct buffers, no buffer is handed over twice and none is both transmitted and freed. */
  lemma ExactlyOneOwner(rx: seq<Mbuf>, sent: nat, o: Outcome, m: Mbuf)
    requires Forwarded(rx, sent, o) && m in rx
    requires forall i, j :: 0 <= i < j < |rx| ==> rx[i] != rx[j]
    ensures multiset(o.transmitted)[m] + multiset(o.freed)[m] == 1
  {
    BurstConserves(rx, sent, o);
    DistinctCounts(rx, m);
    assert (multiset(o.transmitted) + multiset(o.freed))[m] == multiset(rx)[m];
  }

  lemma {:induction false} DistinctCounts(s: seq<Mbuf>, m: Mbuf)
    requires forall i, j :: 0 <= i < j < |s| ==> s[i] != s[j]
    ensures multiset(s)[m] == if m in s then 1 else 0
  {
    if s != [] {
      var n := |s| - 1;
      assert s == s[..n] + [s[n]];
      DistinctCounts(s[..n], m);
    }
  }

  /** The counters one non-empty burst adds. */
  predicate BurstDelta(d: Stats) {
    && 1 <= d.rxPackets <= MAX_BURST && d.rxBursts == 1 && d.txBursts <= 1 && d.dropNoMatch == 0
    && d.rxPackets == d.txPackets + d.dropPackets
    && d.dropPackets == d.dropParseErrors + d.unsentPackets
  }

  // ----- the code -----

  /** Frees `count` packets from `at` on. */
  method DropBurst(packets: array<Mbuf>, at: nat, count: nat) returns (freed: seq<Mbuf>)
    requires at + count <= packets.Length
    ensures freed == packets[at..at + count]
  {
    freed := [];
    for index := 0 to count
      invariant freed == packets[at..at + index]
    {
      freed := freed + [packets[at + index]];
    }
  }

  /** The device takes a prefix of the candidates; the rest is freed. */
  method ForwardBurst(packets: array<Mbuf>, count: nat, accepts: nat)
    returns (sent: nat, transmitted: seq<Mbuf>, freed: seq<Mbuf>)
    requires count <= packets.Length
    ensures sent == (if accepts < count then accepts else count)
    ensures transmitted == packets[..sent] && freed == packets[sent..count]
  {
    if count == 0 {
      return 0, [], [];
    }
    sent := if accepts < count then accepts else count;
    transmitted, freed := packets[..sent], [];
    if sent < count {
      freed := DropBurst(packets, sent, count - sent);
    }
  }

  lemma FilterStep(rx: seq<Mbuf>, n: nat)
    requires n < |rx|
    ensures Good(rx[..n + 1]) == Good(rx[..n]) + if Parses(rx[n]) then [rx[n]] else []
    ensures Unparsed(rx[..n + 1]) == Unparsed(rx[..n]) + if Parses(rx[n]) then [] else [rx[n]]
  {
    assert rx[..n + 1][..n] == rx[..n];
  }

  /** Moves the packets that parse to the front of the array, in place, and frees the others. */
  method Compact(packets: array<Mbuf>, rxCount: nat) returns (candidates: nat, freed: seq<Mbuf>)
    requires rxCount <= packets.Length
    modifies packets
    ensures candidates <= rxCount
    ensures packets[..candidates] == Good(old(packets[..rxCount]))
    ensures freed == Unparsed(old(packets[..rxCount]))
  {
    candidates, freed := 0, [];
    ghost var rx := packets[..rxCount];
    for index := 0 to rxCount
      invariant candidates <= index
      invariant packets[..candidates] == Good(rx[..index]) && freed == Unparsed(rx[..index])
      invariant forall k :: index <= k < rxCount ==> packets[k] == rx[k]
    {
      FilterStep(rx, index);
      var dropped;
      candidates, dropped := KeepOrDrop(packets, candidates, index);
      freed := freed + dropped;
    }
    assert rx[..rxCount] == rx;
  }

  /** One packet: moved behind the candidates if it parses, freed otherwise. */
  method KeepOrDrop(packets: array<Mbuf>, candidates: nat, index: nat) returns (candidates': nat, freed: seq<Mbuf>)
    requires candidates <= index < packets.Length
    modifies packets
    ensures candidates' <= index + 1
    ensures var m := old(packets[index]);
            && packets[..candidates'] == old(packets[..candidates]) + (if Parses(m) then [m] else [])
            && freed == if Parses(m) then [] else [m]
    ensures forall k :: index < k < packets.Length ==> packets[k] == old(packets[k])
  {
    candidates', freed := candidates, [];
    if ParsePacket(packets[index].data).None? {
      freed := DropBurst(packets, index, 1);
      return;
    }
    packets[candidates] := packets[index];
    candidates' := candidates + 1;
  }

  /** The device writes what it received to the front of the array. */
  method RxBurst(packets: array<Mbuf>, rx: seq<Mbuf>)
    requires |rx| <= packets.Length
    modifies packets
    ensures packets[..|rx|] == rx
  {
    for i := 0 to |rx|
      invariant packets[..i] == rx[..i]
    {
      packets[i] := rx[i];
    }
  }

  /** Sends the candidates on and completes the counters of the burst. */
  method Send(packets: array<Mbuf>, candidates: nat, accepts: nat, dropped: seq<Mbuf>, delta: Stats)
    returns (o: Outcome)
    requires candidates <= packets.Length
    ensures var good := packets[..candidates];
            var sent := if accepts < candidates then accepts else candidates;
            o == Outcome(good[..sent], dropped + good[sent..],
                         delta.(txBursts := if candidates == 0 then delta.txBursts else 1,
                                txPackets := if candidates == 0 then delta.txPackets else sent,
                                unsentPackets := if candidates == 0 then delta.unsentPackets else candidates - sent,
                                dropPackets := delta.dropPackets + (candidates - sent)))
  {
    if candidates == 0 {
      assert dropped + [] == dropped;
      return Outcome([], dropped, delta);
    }
    var sent, transmitted, unsent := ForwardBurst(packets, candidates, accepts);
    assert packets[..candidates][..sent] == packets[..sent];
    assert packets[..candidates][sent..] == packets[sent..candidates];
    return Outcome(transmitted, dropped + unsent,
                   delta.(txBursts := 1, txPackets := sent, unsentPackets := candidates - sent,
                          dropPackets := delta.dropPackets + (candidates - sent)));
  }

  const NO_STATS := Stats(0, 0, 0, 0, 0, 0, 0, 0)
}

/** The counter tracker of dpdkd/src/stats.c, and what any interleaving of its locked calls leaves in it. */
module Counters {
  import opened Responses
  import opened Burst

  function Wrap(n: nat): (r: nat)
    ensures r < U64
  {
    n % U64
  }

  function Add(a: Stats, b: Stats): (r: Stats) {
    Stats(a.rxPackets + b.rxPackets, a.txPackets + b.txPackets, a.dropPackets + b.dropPackets,
          a.dropParseErrors + b.dropParseErrors, a.dropNoMatch + b.dropNoMatch, a.rxBursts + b.rxBursts,
          a.txBursts + b.txBursts, a.unsentPackets + b.unsentPackets)
  }

  /** Every counter reduced to 64 bits. */
  function WrapAll(s: Stats): (r: Stats)
    ensures WfStats(r)
  {
    Stats(Wrap(s.rxPackets), Wrap(s.txPackets), Wrap(s.dropPackets), Wrap(s.dropParseErrors), Wrap(s.dropNoMatch),
          Wrap(s.rxBursts), Wrap(s.txBursts), Wrap(s.unsentPackets))
  }

  class Tracker {
    var snapshot: Stats
    var initialized: bool

    constructor ()
      ensures snapshot == NO_STATS && initialized
    {
      snapshot, initialized := NO_STATS, true;
    }

    method Reset()
      modifies this`snapshot
      ensures snapshot == if initialized then NO_STATS else old(snapshot)
    {
      if initialized {
        snapshot := NO_STATS;
      }
    }

    method AddBurst(delta: Stats)
      modifies this`snapshot
      ensures snapshot == if initialized then WrapAll(Add(old(snapshot), delta)) else old(snapshot)
    {
      if !initialized {
        return;
      }
      snapshot := snapshot.(rxPackets := Wrap(snapshot.rxPackets + delta.rxPackets));
      snapshot := snapshot.(txPackets := Wrap(snapshot.txPackets + delta.txPackets));
      snapshot := snapshot.(dropPackets := Wrap(snapshot.dropPackets + delta.dropPackets));
      snapshot := snapshot.(dropParseErrors := Wrap(snapshot.dropParseErrors + delta.dropParseErrors));
      snapshot := snapshot.(dropNoMatch := Wrap(snapshot.dropNoMatch + delta.dropNoMatch));
      snapshot := snapshot.(rxBursts := Wrap(snapshot.rxBursts + delta.rxBursts));
      snapshot := snapshot.(txBursts := Wrap(snapshot.txBursts + delta.txBursts));
      snapshot := snapshot.(unsentPackets := Wrap(snapshot.unsentPackets + delta.unsentPackets));
    }

    method Snapshot() returns (s: Stats)
      ensures s == if initialized then snapshot else NO_STATS
    {
      s := if initialized then snapshot else NO_STATS;
    }
  }

  /** The locked calls, in the order the lock let them through. */
  datatype Op = BurstAdded(delta: Stats) | CountersReset

  /** The tracker after a list of calls, as the methods above leave it. */
  function Tracked(ops: seq<Op>): (s: Stats) {
    if ops == [] then NO_STATS
    else
      var before := Tracked(ops[..|ops| - 1]);
      match ops[|ops| - 1]
      case BurstAdded(delta) => WrapAll(Add(before, delta))
      case CountersReset => NO_STATS
  }

  /** The exact sum of the bursts since the last reset. */
  function SinceReset(ops: seq<Op>): (s: Stats) {
    if ops == [] then NO_STATS
    else
      match ops[|ops| - 1]
      case BurstAdded(delta) => Add(SinceReset(ops[..|ops| - 1]), delta)
      case CountersReset => NO_STATS
  }

  /** Receives a burst, forwards what parses, says what became of every packet and adds the burst to the counters. */
  method ForwardDirection(packets: array<Mbuf>, rx: seq<Mbuf>, accepts: nat, tracker: Tracker)
    returns (didWork: bool, o: Outcome)
    requires packets.Length == MAX_BURST && |rx| <= MAX_BURST
    modifies packets, tracker`snapshot
    ensures didWork <==> rx != []
    ensures didWork ==> Forwarded(rx, if accepts < |Good(rx)| then accepts else |Good(rx)|, o)
    ensures !didWork ==> o == Outcome([], [], NO_STATS) && tracker.snapshot == old(tracker.snapshot)
    ensures didWork && tracker.initialized ==> tracker.snapshot == WrapAll(Add(old(tracker.snapshot), o.delta))
  {
    RxBurst(packets, rx);
    var rxCount := |rx|;
    if rxCount == 0 {
      return false, Outcome([], [], NO_STATS);
    }
    var candidates, freed := Compact(packets, rxCount);
    var delta := NO_STATS.(rxBursts := 1, rxPackets := rxCount, dropParseErrors := |freed|, dropPackets := |freed|);
    o := Send(packets, candidates, accepts, freed, delta);
    tracker.AddBurst(o.delta);
    didWork := true;
  }

  /** What arrives at one pass of a direction, and how much the device takes. */
  datatype Arrival = Arrival(packets: seq<Mbuf>, accepts: nat)

  /** What one pass does, given what arrives and what the device takes. */
  function OutcomeOf(a: Arrival): (o: Outcome) {
    if a.packets == [] then Outcome([], [], NO_STATS)
    else
      var good, bad := Good(a.packets), Unparsed(a.packets);
      var sent := if a.accepts < |good| then a.accepts else |good|;
      Outcome(good[..sent], bad + good[sent..],
              Stats(|a.packets|, sent, |bad| + (|good| - sent), |bad|, 0, 1,
                    if good == [] then 0 else 1, |good| - sent))
  }

  lemma OutcomeConserves(a: Arrival)
    ensures var o := OutcomeOf(a);
            && multiset(o.transmitted) + multiset(o.freed) == multiset(a.packets)
            && o.delta.rxPackets == |a.packets|
            && o.delta.txPackets == |o.transmitted| && o.delta.dropPackets == |o.freed|
            && o.delta.rxBursts == (if a.packets == [] then 0 else 1)
            && (0 < |a.packets| <= MAX_BURST ==> BurstDelta(o.delta))
  {
    if a.packets != [] {
      BurstConserves(a.packets, if a.accepts < |Good(a.packets)| then a.accepts else |Good(a.packets)|, OutcomeOf(a));
    }
  }

  // What any number of passes amounts to: the calls of the tracker, the packets sent and those freed.

  function CallsOf(arrivals: seq<Arrival>): (ops: seq<Op>) {
    if arrivals == [] then []
    else
      var n := |arrivals| - 1;
      CallsOf(arrivals[..n]) + if arrivals[n].packets == [] then [] else [BurstAdded(OutcomeOf(arrivals[n]).delta)]
  }

  function SentOf(arrivals: seq<Arrival>): (sent: seq<Mbuf>) {
    if arrivals == [] then []
    else SentOf(arrivals[..|arrivals| - 1]) + OutcomeOf(arrivals[|arrivals| - 1]).transmitted
  }

  function FreedOf(arrivals: seq<Arrival>): (freed: seq<Mbuf>) {
    if arrivals == [] then []
    else FreedOf(arrivals[..|arrivals| - 1]) + OutcomeOf(arrivals[|arrivals| - 1]).freed
  }

  ghost function Received(arrivals: seq<Arrival>): (m: multiset<Mbuf>) {
    if arrivals == [] then multiset{}
    else Received(arrivals[..|arrivals| - 1]) + multiset(arrivals[|arrivals| - 1].packets)
  }

  function PacketCount(arrivals: seq<Arrival>): (n: nat) {
    if arrivals == [] then 0 else PacketCount(arrivals[..|arrivals| - 1]) + |arrivals[|arrivals| - 1].packets|
  }

  function BurstCount(arrivals: seq<Arrival>): (n: nat) {
    if arrivals == [] then 0
    else BurstCount(arrivals[..|arrivals| - 1]) + if arrivals[|arrivals| - 1].packets == [] then 0 else 1
  }

  /** One pass does what is specified, and counts it if it brought something. */
  method ForwardPass(packets: array<Mbuf>, a: Arrival, tracker: Tracker, ghost ops: seq<Op>) returns (o: Outcome)
    requires packets.Length == MAX_BURST && |a.packets| <= MAX_BURST
    requires tracker.initialized && tracker.snapshot == Tracked(ops)
    modifies packets, tracker`snapshot
    ensures o == OutcomeOf(a)
    ensures tracker.snapshot == Tracked(ops + if a.packets == [] then [] else [BurstAdded(o.delta)])
  {
    var didWork;
    didWork, o := ForwardDirection(packets, a.packets, a.accepts, tracker);
    if didWork {
      OneMoreBurst(ops, o.delta);
    } else {
      assert ops + [] == ops;
    }
  }

  /** Any number of passes over one packet array, from a fresh tracker. */
  method ForwardAll(arrivals: seq<Arrival>) returns (s: Stats, transmitted: seq<Mbuf>, freed: seq<Mbuf>)
    requires forall i :: 0 <= i < |arrivals| ==> |arrivals[i].packets| <= MAX_BURST
    ensures s == Tracked(CallsOf(arrivals)) && transmitted == SentOf(arrivals) && freed == FreedOf(arrivals)
  {
    var tracker := new Tracker();
    var packets := new Mbuf[MAX_BURST](_ => Mbuf(0, []));
    transmitted, freed := [], [];
    for index := 0 to |arrivals|
      invariant fresh(tracker) && fresh(packets) && packets.Length == MAX_BURST
      invariant tracker.initialized && tracker.snapshot == Tracked(CallsOf(arrivals[..index]))
      invariant transmitted == SentOf(arrivals[..index]) && freed == FreedOf(arrivals[..index])
    {
      assert arrivals[..index + 1][..index] == arrivals[..index];
      var o := ForwardPass(packets, arrivals[index], tracker, CallsOf(arrivals[..index]));
      transmitted, freed := transmitted + o.transmitted, freed + o.freed;
    }
    assert arrivals[..|arrivals|] == arrivals;
    s := tracker.Snapshot();
  }

  /** Every packet of every pass is transmitted or freed, once. */
  lemma {:induction false} PassesConserve(arrivals: seq<Arrival>)
    ensures multiset(SentOf(arrivals)) + multiset(FreedOf(arrivals)) == Received(arrivals)
  {
    if arrivals != [] {
      PassesConserve(arrivals[..|arrivals| - 1]);
      OutcomeConserves(arrivals[|arrivals| - 1]);
    }
  }

  /** The sums of the counters are the numbers of packets: received, sent and freed, and of passes that brought some. */
  lemma {:induction false} CountersMatchPackets(arrivals: seq<Arrival>)
    ensures var sum := SinceReset(CallsOf(arrivals));
            && sum.rxPackets == PacketCount(arrivals) && sum.rxBursts == BurstCount(arrivals)
            && sum.txPackets == |SentOf(arrivals)| && sum.dropPackets == |FreedOf(arrivals)|
  {
    if arrivals != [] {
      var n := |arrivals| - 1;
      CountersMatchPackets(arrivals[..n]);
      OutcomeConserves(arrivals[n]);
      SumOfOneMore(CallsOf(arrivals[..n]), OutcomeOf(arrivals[n]).delta);
      if arrivals[n].packets == [] {
        assert CallsOf(arrivals[..n]) + [] == CallsOf(arrivals[..n]);
      }
    }
  }

  // The drops of all passes: packets that did not parse, and candidates the device did not take.

  function UnparsedCount(arrivals: seq<Arrival>): (n: nat) {
    if arrivals == [] then 0
    else UnparsedCount(arrivals[..|arrivals| - 1]) + |Unparsed(arrivals[|arrivals| - 1].packets)|
  }

  function UnsentCount(arrivals: seq<Arrival>): (n: nat) {
    if arrivals == [] then 0
    else UnsentCount(arrivals[..|arrivals| - 1]) + Unsent(arrivals[|arrivals| - 1])
  }

  function Unsent(a: Arrival): (n: nat) {
    if a.accepts < |Good(a.packets)| then |Good(a.packets)| - a.accepts else 0
  }

  lemma OutcomeDrops(a: Arrival)
    ensures var d := OutcomeOf(a).delta;
            && d.dropParseErrors == |Unparsed(a.packets)| && d.unsentPackets == Unsent(a) && d.dropNoMatch == 0
            && d.txBursts == if Good(a.packets) == [] then 0 else 1
  {
  }

  /** The drop counters tell parse errors and unsent packets apart; none is dropped for lack of a rule. */
  lemma {:induction false} DropCountersMatch(arrivals: seq<Arrival>)
    ensures var sum := SinceReset(CallsOf(arrivals));
            && sum.dropParseErrors == UnparsedCount(arrivals) && sum.unsentPackets == UnsentCount(arrivals)
            && sum.dropNoMatch == 0
  {
    if arrivals != [] {
      var n := |arrivals| - 1;
      DropCountersMatch(arrivals[..n]);
      OutcomeDrops(arrivals[n]);
      SumOfOneMore(CallsOf(arrivals[..n]), OutcomeOf(arrivals[n]).delta);
      if arrivals[n].packets == [] {
        assert CallsOf(arrivals[..n]) + [] == CallsOf(arrivals[..n]);
      }
    }
  }

  lemma SumOfOneMore(ops: seq<Op>, delta: Stats)
    ensures SinceReset(ops + [BurstAdded(delta)]) == Add(SinceReset(ops), delta)
  {
    assert (ops + [BurstAdded(delta)])[..|ops|] == ops;
  }

  /** So that every theorem about snapshots applies to what the passes leave in the tracker. */
  lemma {:induction false} PassesAreBursts(arrivals: seq<Arrival>)
    requires forall i :: 0 <= i < |arrivals| ==> |arrivals[i].packets| <= MAX_BURST
    ensures AllBursts(CallsOf(arrivals))
  {
    if arrivals != [] {
      var n := |arrivals| - 1;
      PassesAreBursts(arrivals[..n]);
      OutcomeConserves(arrivals[n]);
    }
  }

  lemma OneMoreBurst(ops: seq<Op>, delta: Stats)
    ensures Tracked(ops + [BurstAdded(delta)]) == WrapAll(Add(Tracked(ops), delta))
  {
    assert (ops + [BurstAdded(delta)])[..|ops|] == ops;
  }

  lemma WrapAdds(a: nat, b: nat)
    ensures Wrap(Wrap(a) + b) == Wrap(a + b)
  {
    assert a + b == (Wrap(a) + b) + (a / U64) * U64;
    WrapShift(Wrap(a) + b, a / U64);
  }

  lemma {:induction false} WrapShift(n: nat, k: nat)
    ensures Wrap(n + k * U64) == Wrap(n)
  {
    if k > 0 {
      WrapShift(n, k - 1);
      assert n + k * U64 == (n + (k - 1) * U64) + U64;
    }
  }

  lemma WrapAllAdds(a: Stats, b: Stats)
    ensures WrapAll(Add(WrapAll(a), b)) == WrapAll(Add(a, b))
  {
    WrapAdds(a.rxPackets, b.rxPackets); WrapAdds(a.txPackets, b.txPackets);
    WrapAdds(a.dropPackets, b.dropPackets); WrapAdds(a.dropParseErrors, b.dropParseErrors);
    WrapAdds(a.dropNoMatch, b.dropNoMatch); WrapAdds(a.rxBursts, b.rxBursts);
    WrapAdds(a.txBursts, b.txBursts); WrapAdds(a.unsentPackets, b.unsentPackets);
  }

  /** The tracker refines the sum: every snapshot is the sum since the last reset, modulo 2^64. */
  lemma {:induction false} TrackerIsSum(ops: seq<Op>)
    ensures Tracked(ops) == WrapAll(SinceReset(ops))
  {
    if ops != [] {
      TrackerIsSum(ops[..|ops| - 1]);
      if ops[|ops| - 1].BurstAdded? {
        WrapAllAdds(SinceReset(ops[..|ops| - 1]), ops[|ops| - 1].delta);
      }
    }
  }

  /** A tracker that is given a list of calls ends up as the specification says. */
  method RunCalls(ops: seq<Op>) returns (s: Stats)
    ensures s == Tracked(ops)
  {
    var tracker := new Tracker();
    for index := 0 to |ops|
      invariant tracker.initialized && tracker.snapshot == Tracked(ops[..index])
    {
      assert ops[..index + 1][..index] == ops[..index];
      match ops[index]
      case BurstAdded(delta) => tracker.AddBurst(delta);
      case CountersReset => tracker.Reset();
    }
    assert ops[..|ops|] == ops;
    s := tracker.Snapshot();
  }

  predicate AllBursts(ops: seq<Op>) {
    forall i :: 0 <= i < |ops| && ops[i].BurstAdded? ==> BurstDelta(ops[i].delta)
  }

  /** What holds of every sum of bursts. */
  predicate Balanced(s: Stats) {
    && s.rxPackets == s.txPackets + s.dropPackets
    && s.dropPackets == s.dropParseErrors + s.unsentPackets && s.dropNoMatch == 0
    && s.txBursts <= s.rxBursts <= s.rxPackets <= 256 * s.rxBursts
  }

  lemma {:induction false} SumIsBalanced(ops: seq<Op>)
    requires AllBursts(ops)
    ensures Balanced(SinceReset(ops))
  {
    if ops != [] {
      var n := |ops| - 1;
      SumIsBalanced(ops[..n]);
      if ops[n].BurstAdded? {
        assert BurstDelta(ops[n].delta);
      }
    }
  }

  lemma WrapBoth(a: nat, b: nat)
    ensures Wrap(Wrap(a) + Wrap(b)) == Wrap(a + b)
  {
    WrapAdds(a, Wrap(b));
    WrapAdds(b, a);
  }

  /** The balance of 64-bit counters. */
  predicate BalancedModulo(s: Stats) {
    && s.rxPackets == Wrap(s.txPackets + s.dropPackets)
    && s.dropPackets == Wrap(s.dropParseErrors + s.unsentPackets)
    && s.dropNoMatch == 0
  }

  lemma BalancedWraps(s: Stats)
    requires Balanced(s)
    ensures BalancedModulo(WrapAll(s))
  {
    WrapBoth(s.txPackets, s.dropPackets);
    WrapBoth(s.dropParseErrors, s.unsentPackets);
  }

  lemma WrapSmall(s: Stats)
    requires WfStats(s)
    ensures WrapAll(s) == s
  {
  }

  /** In every snapshot of every run, received is transmitted plus dropped, in 64-bit arithmetic. */
  lemma SnapshotsBalance(ops: seq<Op>)
    requires AllBursts(ops)
    ensures BalancedModulo(Tracked(ops))
  {
    SumIsBalanced(ops);
    TrackerIsSum(ops);
    BalancedWraps(SinceReset(ops));
  }

  /** As long as no counter has wrapped, a snapshot is the exact sum, and every relation between counters is exact. */
  lemma SnapshotsExact(ops: seq<Op>)
    requires AllBursts(ops) && WfStats(SinceReset(ops))
    ensures Tracked(ops) == SinceReset(ops) && Balanced(Tracked(ops))
  {
    SumIsBalanced(ops);
    TrackerIsSum(ops);
    WrapSmall(SinceReset(ops));
  }
}
