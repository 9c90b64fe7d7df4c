/** The topology document (ctrld/pktlab_ctrld/types.py), after YAML and address parsing. */
module TopologyConfig {
  import opened JsonGrammar
  import opened Lcores
  import opened RuntimePolicy

  /** An interface in a namespace. */
  datatype Ref = Ref(ns: string, iface: string)

  type Prefix = p: nat | p <= 32

  /** An IPv4 address with a prefix length. */
  datatype Cidr = Cidr(addr: nat, prefix: Prefix)

  /** An address field as the document holds it: text that does or does not parse as IPv4. */
  datatype Text<T> = Malformed | Value(value: T)

  datatype Link = Link(name: string, a: string, b: string, ipA: Option<Text<Cidr>>, ipB: Option<Text<Cidr>>)

  datatype Role = Ingress | Egress

  datatype DpdkPort = DpdkPort(name: string, ns: string, role: Role)

  datatype Route = Route(ns: string, dst: Text<Cidr>, via: Text<nat>)

  datatype Protocol = Tcp | Udp | Icmp | AnyProtocol

  datatype Match = Match(proto: Option<Protocol>, srcIp: Option<Text<nat>>, dstIp: Option<Text<nat>>,
                         srcCidr: Option<Text<Cidr>>, dstCidr: Option<Text<Cidr>>, srcPort: Option<nat>,
                         dstPort: Option<nat>)

  datatype Rule = Rule(id: nat, pattern: Match, target: Option<string>)

  datatype Ruleset = Ruleset(defaultTarget: Option<string>, entries: seq<Rule>)

  datatype Capture = Capture(name: string, ns: string, iface: string)

  datatype Topology = Topology(name: string, dpdkNs: string, request: Request, namespaces: seq<string>,
                               links: seq<Link>, ports: seq<DpdkPort>, routes: seq<Route>, rules: Ruleset,
                               captures: seq<Capture>)

  /** The text before and after the first colon. */
  function SplitRef(s: string): (r: Ref) {
    var i := Find(s, ':');
    if i == |s| then Ref(s, "") else Ref(s[..i], s[i + 1..])
  }

  /** The same, refused when there is no colon or a side is empty. */
  function ParseRef(s: string): (r: Option<Ref>)
    ensures r.Some? ==> r.value == SplitRef(s)
  {
    var i := Find(s, ':');
    if i == |s| || s[..i] == "" || s[i + 1..] == "" then None else Some(Ref(s[..i], s[i + 1..]))
  }

  /** Every reference written `namespace:interface` is read back as that pair. */
  lemma RefRoundTrip(r: Ref)
    requires r.ns != "" && r.iface != "" && ':' !in r.ns
    ensures ParseRef(r.ns + ":" + r.iface) == Some(r)
  {
    var s := r.ns + [':'] + r.iface;
    FindFirst(r.ns, ':', r.iface);
    assert s[..|r.ns|] == r.ns && s[|r.ns| + 1..] == r.iface;
  }

  /** A network, by the leading `prefix` bits its addresses share. */
  datatype Network = Network(bits: nat, prefix: Prefix)

  function ShiftRight(n: nat, k: nat): (r: nat)
    decreases k
  {
    if k == 0 then n else ShiftRight(n / 2, k - 1)
  }

  /** The network of an interface address. */
  function NetworkOf(c: Cidr): (n: Network)
    ensures InNetwork(c.addr, n)
  {
    Network(ShiftRight(c.addr, 32 - c.prefix), c.prefix)
  }

  predicate InNetwork(addr: nat, n: Network) {
    ShiftRight(addr, 32 - n.prefix) == n.bits
  }

  // ----- what networks are -----

  lemma AtLeastOnce(m: int, k: int)
    requires m >= 0
    ensures k > 0 ==> m * k >= m
    ensures k < 0 ==> m * k <= -m
  {
    if k > 0 {
      assert m * k == m + m * (k - 1);
    } else if k < 0 {
      assert m * k == -m - m * (-k - 1);
    }
  }

  lemma DivisionIs(a: nat, m: nat, q: nat, r: nat)
    requires m > 0 && a == m * q + r && r < m
    ensures a / m == q
  {
    assert m * (q - a / m) == a % m - r;
    AtLeastOnce(m, q - a / m);
  }

  lemma HalfFirst(n: nat, m: nat)
    requires m > 0
    ensures (n / 2) / m == n / (2 * m)
  {
    var q, r := n / (2 * m), n % (2 * m);
    assert n == (2 * m) * q + r;
    assert (2 * m) * q == 2 * (m * q);
    assert n / 2 == m * q + r / 2;
    DivisionIs(n / 2, m, q, r / 2);
  }

  /** Shifting right divides by a power of two. */
  lemma {:induction false} ShiftDivides(n: nat, k: nat)
    ensures ShiftRight(n, k) == n / Pow2(k)
    decreases k
  {
    if k > 0 {
      ShiftDivides(n / 2, k - 1);
      HalfFirst(n, Pow2(k - 1));
    }
  }

  lemma SameQuotient(a: nat, b: nat, m: nat)
    requires m > 0
    ensures a / m == b / m <==> b - b % m <= a < b - b % m + m
  {
    var q := b / m;
    assert b - b % m == m * q;
    if m * q <= a < m * q + m {
      DivisionIs(a, m, q, a - m * q);
    }
    if a / m == q {
      assert a == m * q + a % m;
    }
  }

  /** A network holds exactly the block of addresses, of the prefix's size, that its interface address lies in. */
  lemma NetworkIsBlock(c: Cidr, a: nat)
    ensures var size := Pow2(32 - c.prefix);
            InNetwork(a, NetworkOf(c)) <==> c.addr - c.addr % size <= a < c.addr - c.addr % size + size
  {
    ShiftDivides(a, 32 - c.prefix);
    ShiftDivides(c.addr, 32 - c.prefix);
    SameQuotient(a, c.addr, Pow2(32 - c.prefix));
  }

  /** Two addresses are in one network exactly when their prefixes are equal and one lies in the other's block. */
  lemma SameNetwork(c: Cidr, d: Cidr)
    ensures var size := Pow2(32 - c.prefix);
            NetworkOf(c) == NetworkOf(d) <==>
            c.prefix == d.prefix && c.addr - c.addr % size <= d.addr < c.addr - c.addr % size + size
  {
    NetworkIsBlock(c, d.addr);
  }
}

/** Semantic validation of a topology (ctrld/pktlab_ctrld/config/validation.py). */
module Validation {
  import opened JsonGrammar
  import opened TopologyConfig
  import opened RuntimePolicy

  const INGRESS_KERNEL := "veth-in-k"
  const EGRESS_KERNEL := "veth-out-k"

  datatype Issue =
    | DuplicateName | UnknownNamespace | InvalidRef | SelfLink | InterfaceReused | IncompleteAddressing | InvalidAddress
    | MismatchedSubnets | InvalidPortRoles | PortNamespaceMismatch | InterfaceNameConflict | UnreachableGateway
    | UnknownInterface | MissingBridgeSide | DuplicateRuleId | ConflictingMatch | IcmpPorts | UnknownPort
    | RuntimeProfile

  // ----- the declarative predicate -----

  predicate Distinct(names: seq<string>) {
    forall i, j :: 0 <= i < j < |names| ==> names[i] != names[j]
  }

  function NameSet(names: seq<string>): (s: set<string>) {
    set n | n in names
  }

  function LinkNames(links: seq<Link>): (names: seq<string>) {
    seq(|links|, i requires 0 <= i < |links| => links[i].name)
  }

  function PortNames(ports: seq<DpdkPort>): (names: seq<string>) {
    seq(|ports|, i requires 0 <= i < |ports| => ports[i].name)
  }

  function CaptureNames(captures: seq<Capture>): (names: seq<string>) {
    seq(|captures|, i requires 0 <= i < |captures| => captures[i].name)
  }

  predicate EndOk(text: string, names: set<string>) {
    ParseRef(text).Some? && SplitRef(text).ns in names
  }

  predicate AddressesOk(l: Link) {
    || (l.ipA.None? && l.ipB.None?)
    || (l.ipA.Some? && l.ipB.Some? && l.ipA.value.Value? && l.ipB.value.Value?
        && NetworkOf(l.ipA.value.value) == NetworkOf(l.ipB.value.value))
  }

  /** A link whose ends are two interfaces of declared namespaces, addressed at both ends or neither. */
  predicate LinkOk(l: Link, names: set<string>) {
    EndOk(l.a, names) && EndOk(l.b, names) && SplitRef(l.a) != SplitRef(l.b) && AddressesOk(l)
  }

  predicate Apart(k: Link, l: Link) {
    && SplitRef(k.a) != SplitRef(l.a) && SplitRef(k.a) != SplitRef(l.b)
    && SplitRef(k.b) != SplitRef(l.a) && SplitRef(k.b) != SplitRef(l.b)
  }

  predicate EachOk(links: seq<Link>, names: set<string>) {
    forall i :: 0 <= i < |links| ==> LinkOk(links[i], names)
  }

  predicate AllApart(links: seq<Link>) {
    forall i, j :: 0 <= i < j < |links| ==> Apart(links[i], links[j])
  }

  predicate LinksOk(links: seq<Link>, names: set<string>) {
    EachOk(links, names) && AllApart(links)
  }

  /** The interfaces the links declare. */
  function Ends(links: seq<Link>): (refs: set<Ref>) {
    (set l | l in links :: SplitRef(l.a)) + (set l | l in links :: SplitRef(l.b))
  }

  predicate Addressed(l: Link) {
    l.ipA.Some? && l.ipA.value.Value? && l.ipB.Some? && l.ipB.value.Value?
  }

  /** Namespaces with the networks their links connect them to. */
  function Networks(links: seq<Link>): (nets: set<(string, Network)>) {
    (set l | l in links && Addressed(l) :: (SplitRef(l.a).ns, NetworkOf(l.ipA.value.value)))
    + (set l | l in links && Addressed(l) :: (SplitRef(l.b).ns, NetworkOf(l.ipB.value.value)))
  }

  function CountRole(ports: seq<DpdkPort>, role: Role): (n: nat) {
    if ports == [] then 0 else CountRole(ports[..|ports| - 1], role) + if ports[|ports| - 1].role == role then 1 else 0
  }

  predicate PortsOk(ports: seq<DpdkPort>, dpdkNs: string, names: set<string>, taken: set<Ref>) {
    && Distinct(PortNames(ports)) && CountRole(ports, Ingress) == 1 && CountRole(ports, Egress) == 1
    && EachPortOk(ports, dpdkNs, names, taken)
  }

  predicate EachPortOk(ports: seq<DpdkPort>, dpdkNs: string, names: set<string>, taken: set<Ref>) {
    forall i :: 0 <= i < |ports| ==> PortOk(ports[i], dpdkNs, names, taken)
  }

  predicate PortOk(p: DpdkPort, dpdkNs: string, names: set<string>, taken: set<Ref>) {
    p.ns in names && p.ns == dpdkNs && Ref(p.ns, p.name) !in taken
  }

  function PortRefs(ports: seq<DpdkPort>): (refs: set<Ref>) {
    set p | p in ports :: Ref(p.ns, p.name)
  }

  predicate Reaches(via: nat, ns: string, nets: set<(string, Network)>) {
    exists n :: n in nets && n.0 == ns && InNetwork(via, n.1)
  }

  /** A route whose gateway lies in a network its namespace is directly connected to. */
  predicate RouteOk(r: Route, names: set<string>, nets: set<(string, Network)>) {
    r.ns in names && r.dst.Value? && r.via.Value? && Reaches(r.via.value, r.ns, nets)
  }

  predicate CaptureOk(c: Capture, names: set<string>, refs: set<Ref>) {
    c.ns in names && Ref(c.ns, c.iface) in refs
  }

  predicate Known<T>(t: Option<Text<T>>) {
    t.Some? ==> t.value.Value?
  }

  predicate MatchOk(m: Match) {
    && !(m.srcIp.Some? && m.srcCidr.Some?) && !(m.dstIp.Some? && m.dstCidr.Some?)
    && Known(m.srcIp) && Known(m.dstIp) && Known(m.srcCidr) && Known(m.dstCidr)
    && !(m.proto == Some(Icmp) && (m.srcPort.Some? || m.dstPort.Some?))
  }

  predicate TargetOk(target: Option<string>, ports: set<string>) {
    target.Some? ==> target.value in ports
  }

  predicate RuleOk(r: Rule, ports: set<string>) {
    MatchOk(r.pattern) && TargetOk(r.target, ports)
  }

  predicate RuleIdsDistinct(rules: seq<Rule>) {
    forall i, j :: 0 <= i < j < |rules| ==> rules[i].id != rules[j].id
  }

  predicate RulesOk(rules: Ruleset, ports: set<string>) {
    && TargetOk(rules.defaultTarget, ports)
    && (forall i :: 0 <= i < |rules.entries| ==> RuleOk(rules.entries[i], ports))
    && RuleIdsDistinct(rules.entries)
  }

  /** What it takes for a topology to be accepted. */
  predicate Acceptable(t: Topology) {
    var names, ends := NameSet(t.namespaces), Ends(t.links);
    var refs := ends + PortRefs(t.ports);
    && Distinct(t.namespaces) && t.dpdkNs in names
    && Distinct(LinkNames(t.links)) && LinksOk(t.links, names)
    && PortsOk(t.ports, t.dpdkNs, names, ends)
    && (forall i :: 0 <= i < |t.routes| ==> RouteOk(t.routes[i], names, Networks(t.links)))
    && Distinct(CaptureNames(t.captures))
    && (forall i :: 0 <= i < |t.captures| ==> CaptureOk(t.captures[i], names, refs))
    && Ref(t.dpdkNs, INGRESS_KERNEL) in refs && Ref(t.dpdkNs, EGRESS_KERNEL) in refs
    && RulesOk(t.rules, NameSet(PortNames(t.ports)))
    && Derive(t.request, |t.ports|).Some?
  }

  // ----- the collectors -----

  /** Reports every name that was seen before. */
  method CollectDuplicateNames(items: seq<string>) returns (found: seq<Issue>, names: set<string>)
    ensures found == [] <==> Distinct(items)
    ensures names == NameSet(items)
  {
    found, names := [], {};
    var seen: map<string, nat> := map[];
    for index := 0 to |items|
      invariant names == NameSet(items[..index]) == seen.Keys
      invariant forall n :: n in seen ==> seen[n] < index && items[seen[n]] == n
      invariant found == [] <==> Distinct(items[..index])
    {
      var name := items[index];
      assert items[..index + 1] == items[..index] + [name];
      names := names + {name};
      if name in seen {
        assert items[..index + 1][seen[name]] == items[..index + 1][index];
        found := found + [DuplicateName];
      } else {
        assert forall i :: 0 <= i < index ==> items[i] in items[..index];
        seen := seen[name := index];
      }
    }
    assert items[..|items|] == items;
  }

  /** One end of a link: unknown namespaces and interfaces of earlier links are reported. */
  method CheckEnd(ref: Option<Ref>, index: nat, names: set<string>, seen: map<Ref, nat>, ifaces: set<Ref>)
    returns (found: seq<Issue>, seen': map<Ref, nat>, ifaces': set<Ref>)
    ensures found == [] <==> ref.None? || (ref.value.ns in names && (ref.value in seen ==> seen[ref.value] == index))
    ensures ref.Some? && ref.value.ns in names ==>
              && ifaces' == ifaces + {ref.value}
              && seen' == if ref.value in seen then seen else seen[ref.value := index]
    ensures ref.None? || ref.value.ns !in names ==> ifaces' == ifaces && seen' == seen
  {
    found, seen', ifaces' := [], seen, ifaces;
    if ref.None? {
      return;
    }
    if ref.value.ns !in names {
      found := [UnknownNamespace];
      return;
    }
    if ref.value !in seen {
      seen' := seen[ref.value := index];
    }
    if seen'[ref.value] != index {
      found := [InterfaceReused];
    }
    ifaces' := ifaces + {ref.value};
  }

  /** The addresses of a link, and the networks it connects its ends to. */
  method CheckAddresses(l: Link, names: set<string>) returns (found: seq<Issue>, nets: set<(string, Network)>)
    ensures found == [] <==> AddressesOk(l)
    ensures AddressesOk(l) && EndOk(l.a, names) && EndOk(l.b, names) ==> nets == Networks([l])
  {
    found, nets := [], {};
    if l.ipA.Some? != l.ipB.Some? {
      return [IncompleteAddressing], {};
    }
    if l.ipA.None? || l.ipB.None? {
      return;
    }
    if l.ipA.value.Malformed? {
      found := found + [InvalidAddress];
    }
    if l.ipB.value.Malformed? {
      found := found + [InvalidAddress];
    }
    if l.ipA.value.Malformed? || l.ipB.value.Malformed? {
      return;
    }
    var netA, netB := NetworkOf(l.ipA.value.value), NetworkOf(l.ipB.value.value);
    if netA != netB {
      return [MismatchedSubnets], {};
    }
    var a, b := ParseRef(l.a), ParseRef(l.b);
    if a.Some? && a.value.ns in names {
      nets := nets + {(a.value.ns, netA)};
    }
    if b.Some? && b.value.ns in names {
      nets := nets + {(b.value.ns, netB)};
    }
  }

  /** The issues of the links, the interfaces they declare and the networks they connect. */
  method CollectLinkIssues(links: seq<Link>, names: set<string>)
    returns (found: seq<Issue>, ifaces: set<Ref>, nets: set<(string, Network)>)
    ensures found == [] <==> Distinct(LinkNames(links)) && LinksOk(links, names)
    ensures found == [] ==> ifaces == Ends(links) && nets == Networks(links)
  {
    var linkNames;
    found, linkNames := CollectDuplicateNames(LinkNames(links));
    ifaces, nets := {}, {};
    var seen: map<Ref, nat> := map[];
    ghost var distinct := Distinct(LinkNames(links));
    for index := 0 to |links|
      invariant found == [] <==> distinct && LinksOk(links[..index], names)
      invariant found == [] ==> Collected(links[..index], ifaces, seen, nets)
      invariant forall r :: r in seen ==> seen[r] < index
    {
      var issues, seen', ifaces', nets';
      issues, seen', ifaces', nets' := CheckLink(links[index], index, names, seen, ifaces);
      assert links[..index + 1] == links[..index] + [links[index]];
      LinksGrow(links[..index], links[index], names);
      if found == [] && issues == [] {
        OneMoreCollected(links[..index], links[index], ifaces, seen, nets, ifaces', seen', nets + nets');
      }
      found, seen, ifaces, nets := found + issues, seen', ifaces', nets + nets';
    }
    assert links[..|links|] == links;
  }

  /** What has been collected from links that are in order. */
  ghost predicate Collected(links: seq<Link>, ifaces: set<Ref>, seen: map<Ref, nat>, nets: set<(string, Network)>) {
    ifaces == seen.Keys == Ends(links) && nets == Networks(links)
  }

  lemma OneMoreCollected(links: seq<Link>, link: Link, ifaces: set<Ref>, seen: map<Ref, nat>,
                         nets: set<(string, Network)>,
                         ifaces': set<Ref>, seen': map<Ref, nat>, nets': set<(string, Network)>)
    requires Collected(links, ifaces, seen, nets) && ifaces' == ifaces + Ends([link])
    requires seen'.Keys == seen.Keys + Ends([link]) && nets' == nets + Networks([link])
    ensures Collected(links + [link], ifaces', seen', nets')
  {
    EndsGrow(links, link);
  }

  method CheckLink(link: Link, index: nat, names: set<string>, seen: map<Ref, nat>, ifaces: set<Ref>)
    returns (found: seq<Issue>, seen': map<Ref, nat>, ifaces': set<Ref>, nets: set<(string, Network)>)
    requires forall r :: r in seen ==> seen[r] < index
    ensures forall r :: r in seen' ==> seen'[r] <= index
    ensures found == [] <==> LinkOk(link, names) && SplitRef(link.a) !in seen && SplitRef(link.b) !in seen
    ensures found == [] ==>
              && ifaces' == ifaces + Ends([link]) && seen'.Keys == seen.Keys + Ends([link]) && nets == Networks([link])
  {
    var shape := CheckShape(link);
    var issuesA, seenA, ifacesA := CheckEnd(ParseRef(link.a), index, names, seen, ifaces);
    var issuesB, issues;
    issuesB, seen', ifaces' := CheckEnd(ParseRef(link.b), index, names, seenA, ifacesA);
    issues, nets := CheckAddresses(link, names);
    found := shape + issuesA + issuesB + issues;
    OneLinkEnds(link);
  }

  /** The references themselves: readable, and not the same at both ends. */
  method CheckShape(link: Link) returns (found: seq<Issue>)
    ensures found == [] <==> ParseRef(link.a).Some? && ParseRef(link.b).Some? && SplitRef(link.a) != SplitRef(link.b)
  {
    found := [];
    var a, b := ParseRef(link.a), ParseRef(link.b);
    if a.None? {
      found := found + [InvalidRef];
    }
    if b.None? {
      found := found + [InvalidRef];
    }
    if a.Some? && b.Some? && a.value == b.value {
      found := found + [SelfLink];
    }
  }

  lemma OneLinkEnds(link: Link)
    ensures Ends([link]) == {SplitRef(link.a), SplitRef(link.b)}
  {
    assert [link][0] == link;
  }

  lemma EndsGrow(links: seq<Link>, link: Link)
    ensures Ends(links + [link]) == Ends(links) + Ends([link])
    ensures Networks(links + [link]) == Networks(links) + Networks([link])
  {
    assert forall l :: l in links + [link] <==> l in links || l in [link];
    EndsSplit(links + [link], links, [link]);
    NetworksSplit(links + [link], links, [link]);
  }

  lemma EndsSplit(all: seq<Link>, some: seq<Link>, others: seq<Link>)
    requires forall l :: l in all <==> l in some || l in others
    ensures Ends(all) == Ends(some) + Ends(others)
  {
  }

  lemma NetworksSplit(all: seq<Link>, some: seq<Link>, others: seq<Link>)
    requires forall l :: l in all <==> l in some || l in others
    ensures Networks(all) == Networks(some) + Networks(others)
  {
  }

  lemma EachGrows(links: seq<Link>, link: Link, names: set<string>)
    ensures EachOk(links + [link], names) <==> EachOk(links, names) && LinkOk(link, names)
  {
    var all := links + [link];
    assert all[|links|] == link;
    assert forall i :: 0 <= i < |links| ==> links[i] == all[i];
  }

  lemma ApartGrows(links: seq<Link>, link: Link)
    ensures AllApart(links + [link]) <==> AllApart(links) && forall l :: l in links ==> Apart(l, link)
  {
    var all, n := links + [link], |links|;
    assert all[n] == link;
    assert forall i :: 0 <= i < n ==> links[i] == all[i];
    if AllApart(all) {
      assert forall i :: 0 <= i < n ==> Apart(links[i], all[n]);
    }
  }

  lemma ApartIsNew(links: seq<Link>, link: Link)
    ensures (forall l :: l in links ==> Apart(l, link)) <==>
            SplitRef(link.a) !in Ends(links) && SplitRef(link.b) !in Ends(links)
  {
    forall l | l in links
      ensures SplitRef(l.a) in Ends(links) && SplitRef(l.b) in Ends(links)
    {
    }
  }

  lemma LinksGrow(links: seq<Link>, link: Link, names: set<string>)
    ensures LinksOk(links + [link], names) <==>
            && LinksOk(links, names) && LinkOk(link, names)
            && SplitRef(link.a) !in Ends(links) && SplitRef(link.b) !in Ends(links)
  {
    EachGrows(links, link, names);
    ApartGrows(links, link);
    ApartIsNew(links, link);
  }

  lemma PortRefsGrow(ports: seq<DpdkPort>, port: DpdkPort)
    ensures PortRefs(ports + [port]) == PortRefs(ports) + {Ref(port.ns, port.name)}
  {
  }

  lemma EachPortGrows(ports: seq<DpdkPort>, port: DpdkPort, dpdkNs: string, names: set<string>, taken: set<Ref>)
    ensures EachPortOk(ports + [port], dpdkNs, names, taken) <==>
            EachPortOk(ports, dpdkNs, names, taken) && PortOk(port, dpdkNs, names, taken)
  {
    var all := ports + [port];
    assert all[|ports|] == port;
    assert forall i :: 0 <= i < |ports| ==> ports[i] == all[i];
  }

  /** Counts the ports of a role. */
  method CountRoles(ports: seq<DpdkPort>) returns (ingress: nat, egress: nat)
    ensures ingress == CountRole(ports, Ingress) && egress == CountRole(ports, Egress)
  {
    ingress, egress := 0, 0;
    for index := 0 to |ports|
      invariant ingress == CountRole(ports[..index], Ingress) && egress == CountRole(ports[..index], Egress)
    {
      assert ports[..index + 1][..index] == ports[..index];
      if ports[index].role.Ingress? {
        ingress := ingress + 1;
      } else {
        egress := egress + 1;
      }
    }
    assert ports[..|ports|] == ports;
  }

  method CheckPort(port: DpdkPort, dpdkNs: string, names: set<string>, ifaces: set<Ref>)
    returns (found: seq<Issue>, ifaces': set<Ref>)
    ensures found == [] <==> PortOk(port, dpdkNs, names, ifaces)
    ensures found == [] ==> ifaces' == ifaces + {Ref(port.ns, port.name)}
  {
    found, ifaces' := [], ifaces;
    if port.ns !in names {
      return [UnknownNamespace], ifaces;
    }
    if port.ns != dpdkNs {
      found := found + [PortNamespaceMismatch];
    }
    if Ref(port.ns, port.name) in ifaces {
      found := found + [InterfaceNameConflict];
      return;
    }
    ifaces' := ifaces + {Ref(port.ns, port.name)};
  }

  /** The issues of the ports; their interfaces join those of the links. */
  method CollectPortIssues(ports: seq<DpdkPort>, dpdkNs: string, names: set<string>, taken: set<Ref>)
    returns (found: seq<Issue>, portNames: set<string>, ifaces: set<Ref>)
    ensures found == [] <==> PortsOk(ports, dpdkNs, names, taken)
    ensures found == [] ==> ifaces == taken + PortRefs(ports)
    ensures portNames == NameSet(PortNames(ports))
  {
    found, portNames := CollectDuplicateNames(PortNames(ports));
    var ingress, egress := CountRoles(ports);
    if ingress != 1 || egress != 1 {
      found := found + [InvalidPortRoles];
    }
    ifaces := taken;
    ghost var shape := Distinct(PortNames(ports)) && ingress == 1 && egress == 1;
    for index := 0 to |ports|
      invariant found == [] <==> shape && EachPortOk(ports[..index], dpdkNs, names, taken)
      invariant found == [] ==> ifaces == taken + PortRefs(ports[..index])
    {
      var port := ports[index];
      var issues;
      assert ports[..index + 1] == ports[..index] + [port];
      PortRefsGrow(ports[..index], port);
      EachPortGrows(ports[..index], port, dpdkNs, names, taken);
      if found == [] {
        NewPort(ports, index, port);
      }
      issues, ifaces := CheckPort(port, dpdkNs, names, ifaces);
      found := found + issues;
    }
    assert ports[..|ports|] == ports;
  }

  /** With distinct names, no earlier port is the same interface. */
  lemma NewPort(ports: seq<DpdkPort>, index: nat, port: DpdkPort)
    requires index < |ports| && ports[index] == port && Distinct(PortNames(ports))
    ensures Ref(port.ns, port.name) !in PortRefs(ports[..index])
  {
    var names := PortNames(ports);
    forall i | 0 <= i < index
      ensures ports[i].name != port.name
    {
      assert names[i] != names[index];
    }
  }

  method CollectRouteIssues(routes: seq<Route>, names: set<string>, nets: set<(string, Network)>)
    returns (found: seq<Issue>)
    ensures found == [] <==> forall i :: 0 <= i < |routes| ==> RouteOk(routes[i], names, nets)
  {
    found := [];
    for index := 0 to |routes|
      invariant found == [] <==> forall i :: 0 <= i < index ==> RouteOk(routes[i], names, nets)
    {
      var route := routes[index];
      if route.ns !in names {
        found := found + [UnknownNamespace];
        continue;
      }
      if route.dst.Malformed? {
        found := found + [InvalidAddress];
      }
      if route.via.Malformed? {
        found := found + [InvalidAddress];
        continue;
      }
      if !Reaches(route.via.value, route.ns, nets) {
        found := found + [UnreachableGateway];
      }
    }
  }

  method CollectCaptureIssues(captures: seq<Capture>, names: set<string>, ifaces: set<Ref>) returns (found: seq<Issue>)
    ensures found == [] <==>
            && Distinct(CaptureNames(captures))
            && forall i :: 0 <= i < |captures| ==> CaptureOk(captures[i], names, ifaces)
  {
    var captureNames;
    found, captureNames := CollectDuplicateNames(CaptureNames(captures));
    ghost var shape := found == [];
    for index := 0 to |captures|
      invariant found == [] <==> shape && forall i :: 0 <= i < index ==> CaptureOk(captures[i], names, ifaces)
    {
      var capture := captures[index];
      if capture.ns !in names {
        found := found + [UnknownNamespace];
        continue;
      }
      if Ref(capture.ns, capture.iface) !in ifaces {
        found := found + [UnknownInterface];
      }
    }
  }

  method CollectBridgeSideIssues(dpdkNs: string, ifaces: set<Ref>) returns (found: seq<Issue>)
    ensures found == [] <==> Ref(dpdkNs, INGRESS_KERNEL) in ifaces && Ref(dpdkNs, EGRESS_KERNEL) in ifaces
  {
    found := [];
    if Ref(dpdkNs, INGRESS_KERNEL) !in ifaces {
      found := found + [MissingBridgeSide];
    }
    if Ref(dpdkNs, EGRESS_KERNEL) !in ifaces {
      found := found + [MissingBridgeSide];
    }
  }

  function Unreadable<T>(t: Option<Text<T>>): (found: seq<Issue>)
    ensures found == [] <==> Known(t)
  {
    if t.Some? && t.value.Malformed? then [InvalidAddress] else []
  }

  method CheckMatch(m: Match) returns (found: seq<Issue>)
    ensures found == [] <==> MatchOk(m)
  {
    found := [];
    if m.srcIp.Some? && m.srcCidr.Some? {
      found := found + [ConflictingMatch];
    }
    if m.dstIp.Some? && m.dstCidr.Some? {
      found := found + [ConflictingMatch];
    }
    found := found + Unreadable(m.srcIp) + Unreadable(m.dstIp) + Unreadable(m.srcCidr) + Unreadable(m.dstCidr);
    if m.proto == Some(Icmp) && (m.srcPort.Some? || m.dstPort.Some?) {
      found := found + [IcmpPorts];
    }
  }

  method CollectRuleIssues(rules: Ruleset, ports: set<string>) returns (found: seq<Issue>)
    ensures found == [] <==> RulesOk(rules, ports)
  {
    found := if TargetOk(rules.defaultTarget, ports) then [] else [UnknownPort];
    var seen: map<nat, nat> := map[];
    var entries := rules.entries;
    for index := 0 to |entries|
      invariant forall id :: id in seen ==> seen[id] < index && entries[seen[id]].id == id
      invariant forall i :: 0 <= i < index ==> entries[i].id in seen
      invariant found == [] <==>
                && TargetOk(rules.defaultTarget, ports) && RuleIdsDistinct(entries[..index])
                && forall i :: 0 <= i < index ==> RuleOk(entries[i], ports)
    {
      var rule := entries[index];
      IdsGrow(entries, index, seen);
      if rule.id in seen {
        found := found + [DuplicateRuleId];
      } else {
        seen := seen[rule.id := index];
      }
      var issues := CheckMatch(rule.pattern);
      found := found + issues;
      if !TargetOk(rule.target, ports) {
        found := found + [UnknownPort];
      }
    }
    assert entries[..|entries|] == entries;
  }

  lemma IdsGrow(entries: seq<Rule>, index: nat, seen: map<nat, nat>)
    requires index < |entries|
    requires forall id :: id in seen ==> seen[id] < index && entries[seen[id]].id == id
    requires forall i :: 0 <= i < index ==> entries[i].id in seen
    ensures RuleIdsDistinct(entries[..index + 1]) <==> RuleIdsDistinct(entries[..index]) && entries[index].id !in seen
  {
    var all := entries[..index + 1];
    assert all[..index] == entries[..index];
    if entries[index].id in seen {
      assert all[seen[entries[index].id]].id == all[index].id;
    }
    assert forall i :: 0 <= i < index ==> all[i] == entries[..index][i];
  }

  /** A topology is accepted exactly when the predicate holds, and with the profile derived from its request. */
  method ValidateTopology(t: Topology) returns (found: seq<Issue>, profile: Option<Profile>)
    ensures found == [] && profile.Some? <==> Acceptable(t)
    ensures found == [] ==> profile == Derive(t.request, |t.ports|)
  {
    var names, ifaces, nets, portNames;
    found, names := CollectDuplicateNames(t.namespaces);
    if t.dpdkNs !in names {
      found := found + [UnknownNamespace];
    }
    var linkIssues;
    linkIssues, ifaces, nets := CollectLinkIssues(t.links, names);
    var portIssues, all;
    portIssues, portNames, all := CollectPortIssues(t.ports, t.dpdkNs, names, ifaces);
    var routeIssues := CollectRouteIssues(t.routes, names, nets);
    var captureIssues := CollectCaptureIssues(t.captures, names, all);
    var bridgeIssues := CollectBridgeSideIssues(t.dpdkNs, all);
    var ruleIssues := CollectRuleIssues(t.rules, portNames);
    found := found + linkIssues + portIssues + routeIssues + captureIssues + bridgeIssues + ruleIssues;
    profile := Derive(t.request, |t.ports|);
    if profile.None? {
      found := found + [RuntimeProfile];
    }
  }

  // ----- what acceptance gives the other components -----

  /** The first port of a role, as apply and the command line look it up. */
  function PortOfRole(ports: seq<DpdkPort>, role: Role): (p: Option<DpdkPort>) {
    if ports == [] then None else if ports[0].role == role then Some(ports[0]) else PortOfRole(ports[1..], role)
  }

  lemma {:induction false} RoleFound(ports: seq<DpdkPort>, role: Role)
    requires CountRole(ports, role) > 0
    ensures PortOfRole(ports, role).Some? && PortOfRole(ports, role).value in ports
    ensures PortOfRole(ports, role).value.role == role
  {
    CountFromFront(ports, role);
    if ports[0].role != role {
      RoleFound(ports[1..], role);
    }
  }

  lemma {:induction false} CountFromFront(ports: seq<DpdkPort>, role: Role)
    requires ports != []
    ensures CountRole(ports, role) == CountRole(ports[1..], role) + if ports[0].role == role then 1 else 0
  {
    var n := |ports| - 1;
    if n > 0 {
      CountFromFront(ports[..n], role);
      assert ports[..n][1..] == ports[1..][..n - 1];
    } else {
      assert CountRole(ports[..0], role) == 0 && CountRole(ports[1..], role) == 0;
    }
  }

  lemma DifferentRoles(ports: seq<DpdkPort>, i: DpdkPort, e: DpdkPort)
    requires Distinct(PortNames(ports)) && i in ports && e in ports && i.role != e.role
    ensures i.name != e.name
  {
    var j, k :| 0 <= j < |ports| && 0 <= k < |ports| && ports[j] == i && ports[k] == e;
    var names := PortNames(ports);
    assert names[j] == i.name && names[k] == e.name;
    assert j < k ==> names[j] != names[k];
    assert k < j ==> names[k] != names[j];
  }

  lemma MemberPortOk(ports: seq<DpdkPort>, p: DpdkPort, dpdkNs: string, names: set<string>, taken: set<Ref>)
    requires EachPortOk(ports, dpdkNs, names, taken) && p in ports
    ensures PortOk(p, dpdkNs, names, taken)
  {
  }

  /** The lookups in ports that are in order. */
  lemma RolesFound(ports: seq<DpdkPort>, dpdkNs: string, names: set<string>, taken: set<Ref>)
    requires PortsOk(ports, dpdkNs, names, taken)
    ensures var i, e := PortOfRole(ports, Ingress), PortOfRole(ports, Egress);
            && i.Some? && e.Some? && i.value.name != e.value.name && i.value.ns == dpdkNs == e.value.ns
            && Ref(dpdkNs, i.value.name) !in taken && Ref(dpdkNs, e.value.name) !in taken
  {
    RoleFound(ports, Ingress);
    RoleFound(ports, Egress);
    var i, e := PortOfRole(ports, Ingress).value, PortOfRole(ports, Egress).value;
    DifferentRoles(ports, i, e);
    MemberPortOk(ports, i, dpdkNs, names, taken);
    MemberPortOk(ports, e, dpdkNs, names, taken);
  }

  /** In an accepted topology both role lookups succeed, with two different ports of the datapath namespace. */
  lemma RolesNeverMissing(t: Topology)
    requires Acceptable(t)
    ensures var i, e := PortOfRole(t.ports, Ingress), PortOfRole(t.ports, Egress);
            && i.Some? && e.Some? && i.value.name != e.value.name
            && i.value.ns == t.dpdkNs == e.value.ns
            && Ref(t.dpdkNs, i.value.name) !in Ends(t.links) && Ref(t.dpdkNs, e.value.name) !in Ends(t.links)
  {
    RolesFound(t.ports, t.dpdkNs, NameSet(t.namespaces), Ends(t.links));
  }
}
