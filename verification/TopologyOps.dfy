/**
 The building blocks of a topology's life (ctrld/pktlab_ctrld/topology/namespaces.py, links.py, taps.py and
 routes.py): loops that issue commands in order and stop at the first that raises.
 */
module TopologyOps {
  import opened JsonGrammar
  import opened TopologyConfig
  import opened Validation
  import opened RuntimePolicy
  import Lcores
  import opened Kernel
  import opened Netns

  const INGRESS_BRIDGE := "br-in"
  const EGRESS_BRIDGE := "br-out"

  /** The namespaces a topology declares. */
  function Declared(t: Topology): (d: set<string>) {
    NameSet(t.namespaces)
  }

  // ----- what the steps of a build leave in place -----

  predicate Keeps(i: Iface, j: Iface) {
    i.kind == j.kind && i.addresses <= j.addresses && (i.up ==> j.up)
  }

  /** Nothing is lost: interfaces keep their kind and addresses and stay up. */
  ghost predicate Grows(k: State, l: State) {
    && k.namespaces <= l.namespaces
    && forall r :: r in k.ifaces ==> r in l.ifaces && Keeps(k.ifaces[r], l.ifaces[r])
  }

  ghost predicate SameMasters(k: State, l: State) {
    forall r :: r in k.ifaces && r in l.ifaces ==> k.ifaces[r].master == l.ifaces[r].master
  }

  predicate HasAddress(i: Iface, ip: Option<Text<Cidr>>) {
    ip.Some? && ip.value.Value? ==> ip.value.value in i.addresses
  }

  /** The two ends of one veth pair. */
  predicate Peers(k: State, a: Ref, b: Ref) {
    a in k.ifaces && b in k.ifaces && k.ifaces[a].kind == Veth(b) && k.ifaces[b].kind == Veth(a)
  }

  /** The link's two ends are a veth pair with their addresses. */
  predicate Joined(k: State, l: Link) {
    var a, b := SplitRef(l.a), SplitRef(l.b);
    && Peers(k, a, b)
    && HasAddress(k.ifaces[a], l.ipA) && HasAddress(k.ifaces[b], l.ipB)
  }

  predicate IsUp(k: State, r: Ref) {
    r in k.ifaces && k.ifaces[r].up
  }

  ghost predicate AllJoined(k: State, links: seq<Link>) {
    forall i :: 0 <= i < |links| ==> Joined(k, links[i])
  }

  lemma JoinedGrows(k: State, l: State, links: seq<Link>)
    requires AllJoined(k, links) && Grows(k, l)
    ensures AllJoined(l, links)
  {
    forall i | 0 <= i < |links|
      ensures Joined(l, links[i])
    {
      assert Joined(k, links[i]);
    }
  }

  /** From `k` to `l` interfaces were only added or improved, and only inside `d`. */
  ghost predicate Extends(k: State, l: State, d: set<string>) {
    Within(k, l, d) && Grows(k, l) && l == k.(ifaces := l.ifaces)
  }

  lemma ExtendsTwice(k: State, l: State, m: State, d: set<string>)
    requires Extends(k, l, d) && Extends(l, m, d)
    ensures Extends(k, m, d)
  {
    WithinTwice(k, l, m, d);
  }

  // ----- namespaces -----

  method EnsureNamespaces(t: Topology, host: Host) returns (r: Result)
    requires Wf(host.k)
    modifies host
    ensures Within(old(host.k), host.k, Declared(t))
    ensures host.k == old(host.k).(namespaces := host.k.namespaces)
    ensures old(host.k).namespaces <= host.k.namespaces <= old(host.k).namespaces + Declared(t)
    ensures r.Done? ==> Declared(t) <= host.k.namespaces
    ensures host.calm ==> r.Done?
  {
    for index := 0 to |t.namespaces|
      invariant Within(old(host.k), host.k, Declared(t))
      invariant host.k == old(host.k).(namespaces := host.k.namespaces)
      invariant old(host.k).namespaces <= host.k.namespaces <= old(host.k).namespaces + Declared(t)
      invariant forall i :: 0 <= i < index ==> t.namespaces[i] in host.k.namespaces
    {
      r := host.EnsureNamespace(t.namespaces[index]);
      if r.Raised? {
        return;
      }
    }
    return Done;
  }

  /** Every one of these namespaces can be deleted. */
  ghost predicate DeletesWork(host: Host, d: set<string>) {
    forall n :: n in d ==> host.deletes(n).Works?
  }

  /** The backward loop gets as far as name `i`, which is there and cannot be deleted. */
  ghost predicate StopsAt(host: Host, names: seq<string>, i: nat, present: set<string>) {
    && host.calm && i < |names| && names[i] in present && host.deletes(names[i]).Breaks?
    && forall j :: i < j < |names| ==> host.deletes(names[j]).Works?
  }

  predicate GoneBehind(k: State, names: seq<string>, i: int)
    requires -1 <= i
  {
    forall j :: i < j < |names| ==> names[j] !in k.namespaces
  }

  /** The loop runs backwards; what it got to is gone, and a deletion that fails ends it. */
  method DestroyNamespaces(t: Topology, host: Host) returns (r: Result)
    requires Wf(host.k)
    modifies host
    ensures r.Raised? ==> r.typed
    ensures Within(old(host.k), host.k, Declared(t)) && host.k.datapath == old(host.k).datapath
    ensures host.k.namespaces <= old(host.k).namespaces
    ensures r.Done? ==> Declared(t) !! host.k.namespaces
    ensures host.calm && DeletesWork(host, Declared(t)) ==> r.Done?
    ensures forall i: nat :: StopsAt(host, t.namespaces, i, old(host.k).namespaces) ==>
              r.Raised? && GoneBehind(host.k, t.namespaces, i)
  {
    var index := |t.namespaces|;
    while index > 0
      invariant 0 <= index <= |t.namespaces|
      invariant Within(old(host.k), host.k, Declared(t)) && host.k.datapath == old(host.k).datapath
      invariant host.k.namespaces <= old(host.k).namespaces
      invariant GoneBehind(host.k, t.namespaces, index - 1)
      invariant forall i: nat :: StopsAt(host, t.namespaces, i, old(host.k).namespaces) ==>
                  i < index && t.namespaces[i] in host.k.namespaces
    {
      index := index - 1;
      ghost var before := host.k;
      DelNamespaceWithin(before, t.namespaces[index], Declared(t));
      r := host.DeleteNamespace(t.namespaces[index]);
      if r.Raised? {
        return;
      }
      WithinTwice(old(host.k), before, host.k, Declared(t));
    }
    return Done;
  }

  // ----- links -----

  method EnsureAddress(i: Ref, ip: Option<Text<Cidr>>, host: Host, ghost d: set<string>) returns (r: Result)
    requires Wf(host.k) && i.ns in d && i in host.k.ifaces
    modifies host
    ensures Extends(old(host.k), host.k, d) && host.k.ifaces.Keys == old(host.k).ifaces.Keys
    ensures r.Done? ==> HasAddress(host.k.ifaces[i], ip)
    ensures host.calm ==> r.Done?
  {
    if ip.None? || ip.value.Malformed? {
      return Done;
    }
    r := host.ReplaceAddress(i, ip.value.value);
  }

  method EnsurePair(a: Ref, b: Ref, host: Host, ghost d: set<string>) returns (r: Result)
    requires Wf(host.k) && a.ns in d && b.ns in d
    modifies host
    ensures Extends(old(host.k), host.k, d)
    ensures host.k.ifaces.Keys <= old(host.k).ifaces.Keys + {a, b}
    ensures r.Done? ==> a in host.k.ifaces && b in host.k.ifaces
    ensures r.Done? && a !in old(host.k).ifaces ==> Peers(host.k, a, b)
    ensures host.calm && a != b && {a, b} !! old(host.k).ifaces.Keys && {a.ns, b.ns} <= old(host.k).namespaces ==>
              r.Done?
  {
    ghost var k0 := host.k;
    r := host.EnsureVethPair(a, b);
    if r.Done? && a !in k0.ifaces {
      AddVethWithin(k0, a, b, d);
    }
  }

  /** One link: its veth pair, then its addresses. */
  method EnsureLink(link: Link, host: Host, ghost d: set<string>) returns (r: Result)
    requires Wf(host.k) && LinkOk(link, d)
    modifies host
    ensures Extends(old(host.k), host.k, d)
    ensures host.k.ifaces.Keys <= old(host.k).ifaces.Keys + Ends([link])
    ensures r.Done? && Ends([link]) !! old(host.k).ifaces.Keys ==> Joined(host.k, link)
    ensures host.calm && Ends([link]) !! old(host.k).ifaces.Keys && d <= old(host.k).namespaces ==> r.Done?
  {
    var a, b := SplitRef(link.a), SplitRef(link.b);
    ghost var k0 := host.k;
    OneLinkEnds(link);
    r := EnsurePair(a, b, host, d);
    if r.Raised? {
      return;
    }
    ghost var k1 := host.k;
    r := EnsureAddress(a, link.ipA, host, d);
    ExtendsTwice(k0, k1, host.k, d);
    if r.Raised? {
      return;
    }
    ghost var k2 := host.k;
    r := EnsureAddress(b, link.ipB, host, d);
    ExtendsTwice(k0, k2, host.k, d);
    if r.Done? && a !in k0.ifaces {
      StillJoined(k1, k2, host.k, link);
    }
  }

  lemma StillJoined(k1: State, k2: State, k3: State, link: Link)
    requires var a, b := SplitRef(link.a), SplitRef(link.b);
             && Peers(k1, a, b) && Grows(k1, k2) && Grows(k2, k3)
             && HasAddress(k2.ifaces[a], link.ipA) && HasAddress(k3.ifaces[b], link.ipB)
    ensures Joined(k3, link)
  {
  }

  /** Every declared link, in order. */
  method EnsureLinks(t: Topology, host: Host) returns (r: Result)
    requires Wf(host.k) && LinksOk(t.links, Declared(t))
    modifies host
    ensures Added(old(host.k), host.k, t.links, Declared(t))
    ensures r.Done? && Untaken(old(host.k), t.links) ==> AllJoined(host.k, t.links)
    ensures SureToLink(host, old(host.k), t.links, Declared(t)) ==> r.Done?
  {
    ghost var d, k0 := Declared(t), host.k;
    NothingLinkedYet(k0, t.links, d);
    for index := 0 to |t.links|
      invariant Linking(k0, host.k, t.links, index, d)
    {
      r := LinkPass(t.links, index, host, k0, d);
      if r.Raised? {
        return;
      }
    }
    AllLinked(k0, host.k, t.links, d);
    return Done;
  }

  /** On the way: the first `n` links are there. */
  ghost predicate Linking(k0: State, k: State, links: seq<Link>, n: nat, d: set<string>) {
    n <= |links| && Added(k0, k, links, d) && LinkedTo(k0, k, links, n)
  }

  /** Only ends of these links were added, inside `d`. */
  ghost predicate Added(k0: State, k: State, links: seq<Link>, d: set<string>) {
    Extends(k0, k, d) && EndsOnly(k0, k, links)
  }

  /** Nothing stands in the way of the links. */
  ghost predicate SureToLink(host: Host, k: State, links: seq<Link>, d: set<string>) {
    host.calm && Untaken(k, links) && d <= k.namespaces
  }

  /** None of the links' ends exists. */
  ghost predicate Untaken(k: State, links: seq<Link>) {
    Ends(links) !! k.ifaces.Keys
  }

  lemma AllLinked(k0: State, k: State, links: seq<Link>, d: set<string>)
    requires Linking(k0, k, links, |links|, d)
    ensures Untaken(k0, links) ==> AllJoined(k, links)
  {
    assert links[..|links|] == links;
  }

  /** One pass of the loop over links, on a host that was `k0` before the first. */
  method LinkPass(links: seq<Link>, index: nat, host: Host, ghost k0: State, ghost d: set<string>) returns (r: Result)
    requires index < |links| && LinksOk(links, d) && Linking(k0, host.k, links, index, d)
    modifies host
    ensures Added(k0, host.k, links, d)
    ensures r.Done? ==> Linking(k0, host.k, links, index + 1, d)
    ensures SureToLink(host, k0, links, d) ==> r.Done?
  {
    ghost var before := host.k;
    NextUntaken(k0, before, links, index);
    assert LinkOk(links[index], d);
    r := EnsureLink(links[index], host, d);
    ExtendsTwice(k0, before, host.k, d);
    OneMoreEnds(k0, before, host.k, links, index);
    if r.Done? {
      OneMoreLinked(k0, before, host.k, links, index);
    }
  }

  lemma NothingLinkedYet(k: State, links: seq<Link>, d: set<string>)
    requires Wf(k)
    ensures Linking(k, k, links, 0, d)
  {
  }

  /** The first `n` links added at most their own ends, and are joined if none of their ends was there before. */
  ghost predicate LinkedTo(k0: State, k: State, links: seq<Link>, n: nat)
    requires n <= |links|
  {
    EndsOnly(k0, k, links[..n]) && (Untaken(k0, links) ==> AllJoined(k, links[..n]))
  }

  /** The only new interfaces are ends of these links. */
  ghost predicate EndsOnly(k0: State, k: State, links: seq<Link>) {
    k.ifaces.Keys <= k0.ifaces.Keys + Ends(links)
  }

  lemma NextUntaken(k0: State, k: State, links: seq<Link>, n: nat)
    requires n < |links| && AllApart(links) && EndsOnly(k0, k, links[..n])
    ensures Ends(links) !! k0.ifaces.Keys ==> Ends([links[n]]) !! k.ifaces.Keys
  {
    NewEnds(links, n);
    StillApart(k0.ifaces.Keys, Ends(links[..n]), Ends([links[n]]), Ends(links), k.ifaces.Keys);
  }

  lemma OneMoreEnds(k0: State, k: State, l: State, links: seq<Link>, n: nat)
    requires n < |links| && EndsOnly(k0, k, links[..n]) && l.ifaces.Keys <= k.ifaces.Keys + Ends([links[n]])
    ensures EndsOnly(k0, l, links[..n + 1]) && EndsOnly(k0, l, links)
  {
    EndsTo(links, n);
    Widened(k0.ifaces.Keys, Ends(links[..n]), Ends([links[n]]), k.ifaces.Keys, l.ifaces.Keys);
    EndsOfPrefix(links, n + 1);
  }

  lemma OneMoreLinked(k0: State, k: State, l: State, links: seq<Link>, n: nat)
    requires n < |links| && LinkedTo(k0, k, links, n) && Grows(k, l) && EndsOnly(k0, l, links[..n + 1])
    requires Ends(links) !! k0.ifaces.Keys ==> Joined(l, links[n])
    ensures LinkedTo(k0, l, links, n + 1)
  {
    if Ends(links) !! k0.ifaces.Keys {
      JoinedGrows(k, l, links[..n]);
      OneMoreJoined(l, links, n);
    }
  }

  lemma EndsTo(links: seq<Link>, n: nat)
    requires n < |links|
    ensures Ends(links[..n + 1]) == Ends(links[..n]) + Ends([links[n]])
  {
    assert links[..n + 1] == links[..n] + [links[n]];
    EndsGrow(links[..n], links[n]);
  }

  lemma EndsOfPrefix(links: seq<Link>, n: nat)
    requires n <= |links|
    ensures Ends(links[..n]) <= Ends(links)
  {
  }

  lemma Widened(a: set<Ref>, before: set<Ref>, now: set<Ref>, k: set<Ref>, l: set<Ref>)
    requires k <= a + before && l <= k + now
    ensures l <= a + (before + now)
  {
  }

  lemma StillApart(a: set<Ref>, before: set<Ref>, now: set<Ref>, all: set<Ref>, k: set<Ref>)
    requires k <= a + before && now !! before && now <= all
    ensures all !! a ==> now !! k
  {
  }

  lemma OneMoreJoined(k: State, links: seq<Link>, n: nat)
    requires n < |links| && AllJoined(k, links[..n]) && Joined(k, links[n])
    ensures AllJoined(k, links[..n + 1])
  {
    forall i | 0 <= i < n
      ensures Joined(k, links[i])
    {
      assert links[..n][i] == links[i];
    }
  }

  /** The ends of a link are none of the earlier links' ends. */
  lemma NewEnds(links: seq<Link>, index: nat)
    requires index < |links| && AllApart(links)
    ensures Ends([links[index]]) !! Ends(links[..index]) && Ends([links[index]]) <= Ends(links)
  {
    forall l | l in links[..index]
      ensures Apart(l, links[index])
    {
      var i :| 0 <= i < index && links[i] == l;
    }
    ApartIsNew(links[..index], links[index]);
    assert links[index] in links;
  }

  // ----- bridges -----

  predicate IsBridge(k: State, i: Ref) {
    i in k.ifaces && k.ifaces[i].kind.Bridge?
  }

  function BridgeRefs(ns: string): (refs: set<Ref>) {
    {Ref(ns, INGRESS_BRIDGE), Ref(ns, EGRESS_BRIDGE)}
  }

  /** An interface of that name exists; it is a bridge if the name was free. */
  method EnsureOneBridge(i: Ref, host: Host, ghost d: set<string>) returns (r: Result)
    requires Wf(host.k) && i.ns in d
    modifies host
    ensures Extends(old(host.k), host.k, d) && host.k.ifaces.Keys <= old(host.k).ifaces.Keys + {i}
    ensures r.Done? ==> i in host.k.ifaces && (i !in old(host.k).ifaces ==> IsBridge(host.k, i))
    ensures host.calm && i.ns in old(host.k).namespaces ==> r.Done?
  {
    r := host.EnsureBridge(i);
  }

  /** Both bridges' names are taken afterwards, by bridges unless other interfaces had them. */
  method EnsureBridges(t: Topology, host: Host) returns (r: Result)
    requires Wf(host.k) && t.dpdkNs in Declared(t)
    modifies host
    ensures Extends(old(host.k), host.k, Declared(t))
    ensures host.k.ifaces.Keys <= old(host.k).ifaces.Keys + BridgeRefs(t.dpdkNs)
    ensures r.Done? ==> forall i :: i in BridgeRefs(t.dpdkNs) ==>
              i in host.k.ifaces && (i !in old(host.k).ifaces ==> IsBridge(host.k, i))
    ensures host.calm && t.dpdkNs in old(host.k).namespaces ==> r.Done?
  {
    ghost var k0, d := host.k, Declared(t);
    assert |INGRESS_BRIDGE| == 5 && |EGRESS_BRIDGE| == 6;
    r := EnsureOneBridge(Ref(t.dpdkNs, INGRESS_BRIDGE), host, d);
    if r.Raised? {
      return;
    }
    ghost var k1 := host.k;
    r := EnsureOneBridge(Ref(t.dpdkNs, EGRESS_BRIDGE), host, d);
    ExtendsTwice(k0, k1, host.k, d);
  }

  // ----- bringing links up -----

  /** Up, and otherwise as before. */
  method BringUp(i: Ref, host: Host, ghost d: set<string>) returns (r: Result)
    requires Wf(host.k) && i.ns in d
    modifies host
    ensures Extends(old(host.k), host.k, d) && SameMasters(old(host.k), host.k)
    ensures r.Done? ==> IsUp(host.k, i)
    ensures host.calm && i in old(host.k).ifaces ==> r.Done?
  {
    r := host.SetLinkUp(i);
  }

  method BringLinkUp(link: Link, host: Host, ghost d: set<string>) returns (r: Result)
    requires Wf(host.k) && LinkOk(link, d)
    modifies host
    ensures Extends(old(host.k), host.k, d) && SameMasters(old(host.k), host.k)
    ensures r.Done? ==> EndsUp(host.k, link)
    ensures host.calm && Joined(old(host.k), link) ==> r.Done?
  {
    ghost var k0 := host.k;
    r := BringUp(SplitRef(link.a), host, d);
    if r.Raised? {
      return;
    }
    ghost var k1 := host.k;
    r := BringUp(SplitRef(link.b), host, d);
    ExtendsTwice(k0, k1, host.k, d);
  }

  /** Both ends of every link are brought up. */
  method BringLinkEndpointsUp(t: Topology, host: Host) returns (r: Result)
    requires Wf(host.k) && LinksOk(t.links, Declared(t))
    modifies host
    ensures Extends(old(host.k), host.k, Declared(t)) && SameMasters(old(host.k), host.k)
    ensures r.Done? ==> forall i :: 0 <= i < |t.links| ==> EndsUp(host.k, t.links[i])
    ensures host.calm && AllJoined(old(host.k), t.links) ==> r.Done?
  {
    ghost var d, k0 := Declared(t), host.k;
    for index := 0 to |t.links|
      invariant Extends(k0, host.k, d) && SameMasters(k0, host.k)
      invariant forall i :: 0 <= i < index ==> EndsUp(host.k, t.links[i])
    {
      ghost var before := host.k;
      assert LinkOk(t.links[index], d);
      if AllJoined(k0, t.links) {
        JoinedGrows(k0, before, t.links);
        assert Joined(before, t.links[index]);
      }
      r := BringLinkUp(t.links[index], host, d);
      ExtendsTwice(k0, before, host.k, d);
      if r.Raised? {
        return;
      }
      EndsStayUp(before, host.k, t.links, index);
    }
    return Done;
  }

  predicate EndsUp(k: State, l: Link) {
    IsUp(k, SplitRef(l.a)) && IsUp(k, SplitRef(l.b))
  }

  lemma EndsStayUp(k: State, l: State, links: seq<Link>, n: nat)
    requires n <= |links| && Grows(k, l) && forall i :: 0 <= i < n ==> EndsUp(k, links[i])
    ensures forall i :: 0 <= i < n ==> EndsUp(l, links[i])
  {
  }

  // ----- tearing links and bridges down -----

  /** From `k` to `l` interfaces only went, and only from namespaces in `d`. */
  ghost predicate Removes(k: State, l: State, d: set<string>) {
    && Within(k, l, d) && l == k.(ifaces := l.ifaces)
    && forall r :: r in l.ifaces ==> r in k.ifaces && l.ifaces[r].kind == k.ifaces[r].kind
  }

  lemma RemovesTwice(k: State, l: State, m: State, d: set<string>)
    requires Removes(k, l, d) && Removes(l, m, d)
    ensures Removes(k, m, d)
  {
    WithinTwice(k, l, m, d);
  }

  /** Every namespace that the teardown of links asks about is still there. */
  predicate Open(k: State, t: Topology) {
    t.dpdkNs in k.namespaces && forall i :: 0 <= i < |t.links| ==> SplitRef(t.links[i].a).ns in k.namespaces
  }

  /** The bridges and the first ends of the links from `n` on are gone. */
  predicate GoneFrom(k: State, t: Topology, n: nat) {
    && BridgeRefs(t.dpdkNs) !! k.ifaces.Keys
    && forall i :: n <= i < |t.links| ==> SplitRef(t.links[i].a) !in k.ifaces
  }

  /** With its first end the other end of a veth pair is gone. */
  lemma OtherEndsGone(k: State, l: State, d: set<string>, t: Topology)
    requires Removes(k, l, d) && AllJoined(k, t.links) && GoneFrom(l, t, 0)
    ensures Ends(t.links) !! l.ifaces.Keys
  {
    forall i | 0 <= i < |t.links|
      ensures SplitRef(t.links[i].a) !in l.ifaces && SplitRef(t.links[i].b) !in l.ifaces
    {
      assert Joined(k, t.links[i]);
    }
  }

  /**
   Bridges first, then the links backwards; only what lies in declared namespaces goes. A namespace that is
   missing stops it, so it can succeed exactly when all of those it asks about are there.
   */
  method DestroyLinksAndBridges(t: Topology, host: Host) returns (r: Result)
    requires Wf(host.k) && LinksOk(t.links, Declared(t)) && t.dpdkNs in Declared(t)
    modifies host
    ensures r.Raised? ==> r.typed
    ensures Removes(old(host.k), host.k, Declared(t))
    ensures r.Done? ==> Open(old(host.k), t) && GoneFrom(host.k, t, 0)
    ensures host.calm && Open(old(host.k), t) ==> r.Done?
  {
    ghost var d, k0 := Declared(t), host.k;
    r := DestroyLink(Ref(t.dpdkNs, EGRESS_BRIDGE), host, d);
    if r.Raised? {
      return;
    }
    ghost var k1 := host.k;
    r := DestroyLink(Ref(t.dpdkNs, INGRESS_BRIDGE), host, d);
    RemovesTwice(k0, k1, host.k, d);
    if r.Raised? {
      return;
    }
    var index := |t.links|;
    while index > 0
      invariant 0 <= index <= |t.links|
      invariant Removes(k0, host.k, d) && GoneFrom(host.k, t, index)
      invariant forall i :: index <= i < |t.links| ==> SplitRef(t.links[i].a).ns in k0.namespaces
    {
      index := index - 1;
      ghost var before := host.k;
      assert LinkOk(t.links[index], d);
      r := DestroyLink(SplitRef(t.links[index].a), host, d);
      RemovesTwice(k0, before, host.k, d);
      if r.Raised? {
        return;
      }
    }
    return Done;
  }

  method DestroyLink(i: Ref, host: Host, ghost d: set<string>) returns (r: Result)
    requires Wf(host.k) && i.ns in d
    modifies host
    ensures r.Raised? ==> r.typed
    ensures Removes(old(host.k), host.k, d)
    ensures r.Done? ==> i.ns in old(host.k).namespaces && i !in host.k.ifaces
    ensures host.calm && i.ns in old(host.k).namespaces ==> r.Done?
  {
    DelIfaceWithin(host.k, i, d);
    r := host.DeleteLink(i);
  }

  // ----- TAP interfaces -----

  predicate MemberOf(k: State, i: Ref, bridge: string) {
    i in k.ifaces && k.ifaces[i].master == Some(bridge)
  }

  /** Every interface but `i` stays in the bridge it is in. */
  ghost predicate KeepMembers(k: State, l: State, i: Ref) {
    forall j, b :: j != i && MemberOf(k, j, b) ==> MemberOf(l, j, b)
  }

  /** `i` joins the bridge; everything else keeps the bridge it is in. */
  method Attach(i: Ref, bridge: string, host: Host, ghost d: set<string>) returns (r: Result)
    requires Wf(host.k) && i.ns in d
    modifies host
    ensures Extends(old(host.k), host.k, d) && KeepMembers(old(host.k), host.k, i)
    ensures r.Done? ==> MemberOf(host.k, i, bridge) && IsBridge(host.k, Ref(i.ns, bridge)) && !IsBridge(host.k, i)
    ensures host.calm && CanJoin(old(host.k), i) && IsBridge(old(host.k), Ref(i.ns, bridge)) ==> r.Done?
  {
    r := host.AttachToBridge(i, bridge);
  }

  /** An interface that is not a bridge. */
  predicate CanJoin(k: State, i: Ref) {
    i in k.ifaces && !k.ifaces[i].kind.Bridge?
  }

  /** The bridge an interface of the datapath namespace ends up in, by the order of the four attachments. */
  function BridgeOf(name: string, ingress: string, egress: string): (bridge: string)
  {
    if name == EGRESS_KERNEL || name == egress then EGRESS_BRIDGE else INGRESS_BRIDGE
  }

  /** The ends of both bridges: the kernel-side interfaces and the TAP ports. */
  function BridgeEnds(ingress: string, egress: string): (names: seq<string>) {
    [INGRESS_KERNEL, ingress, egress, EGRESS_KERNEL]
  }

  ghost predicate Bridged(k: State, ns: string, ingress: string, egress: string) {
    && IsBridge(k, Ref(ns, INGRESS_BRIDGE)) && IsBridge(k, Ref(ns, EGRESS_BRIDGE))
    && forall n :: n in BridgeEnds(ingress, egress) ==>
         MemberOf(k, Ref(ns, n), BridgeOf(n, ingress, egress)) && CanJoin(k, Ref(ns, n))
  }

  /** Two bridges, and four interfaces that can join them. */
  ghost predicate Attachable(k: State, ns: string, ingress: string, egress: string) {
    && IsBridge(k, Ref(ns, INGRESS_BRIDGE)) && IsBridge(k, Ref(ns, EGRESS_BRIDGE))
    && CanJoin(k, Ref(ns, INGRESS_KERNEL)) && CanJoin(k, Ref(ns, EGRESS_KERNEL))
    && CanJoin(k, Ref(ns, ingress)) && CanJoin(k, Ref(ns, egress))
  }

  lemma StillAttachable(k: State, l: State, ns: string, ingress: string, egress: string)
    requires Grows(k, l)
    ensures Attachable(k, ns, ingress, egress) ==> Attachable(l, ns, ingress, egress)
  {
  }

  lemma KernelNamesDiffer()
    ensures INGRESS_KERNEL != EGRESS_KERNEL
  {
    assert |INGRESS_KERNEL| == 9 && |EGRESS_KERNEL| == 10;
  }

  method AttachAll(ns: string, ingress: string, egress: string, host: Host, ghost d: set<string>) returns (r: Result)
    requires Wf(host.k) && ns in d && ingress != egress
    modifies host
    ensures Extends(old(host.k), host.k, d)
    ensures r.Done? ==> Bridged(host.k, ns, ingress, egress)
    ensures host.calm && Attachable(old(host.k), ns, ingress, egress) ==> r.Done?
  {
    ghost var k0 := host.k;
    r := Attach(Ref(ns, INGRESS_KERNEL), INGRESS_BRIDGE, host, d);
    if r.Raised? {
      return;
    }
    ghost var k1 := host.k;
    StillAttachable(k0, k1, ns, ingress, egress);
    r := Attach(Ref(ns, ingress), INGRESS_BRIDGE, host, d);
    ExtendsTwice(k0, k1, host.k, d);
    if r.Raised? {
      return;
    }
    ghost var k2 := host.k;
    StillAttachable(k0, k2, ns, ingress, egress);
    r := Attach(Ref(ns, egress), EGRESS_BRIDGE, host, d);
    ExtendsTwice(k0, k2, host.k, d);
    if r.Raised? {
      return;
    }
    ghost var k3 := host.k;
    StillAttachable(k0, k3, ns, ingress, egress);
    r := Attach(Ref(ns, EGRESS_KERNEL), EGRESS_BRIDGE, host, d);
    ExtendsTwice(k0, k3, host.k, d);
    if r.Done? {
      StillNoBridge(k1, k2, k3, host.k, ns, ingress, egress);
      FourAttached(k1, k2, k3, host.k, ns, ingress, egress);
    }
  }

  lemma StillNoBridge(k1: State, k2: State, k3: State, k4: State, ns: string, ingress: string, egress: string)
    requires Grows(k1, k2) && Grows(k2, k3) && Grows(k3, k4)
    requires CanJoin(k1, Ref(ns, INGRESS_KERNEL)) && CanJoin(k2, Ref(ns, ingress)) && CanJoin(k3, Ref(ns, egress))
    requires CanJoin(k4, Ref(ns, EGRESS_KERNEL))
    requires IsBridge(k1, Ref(ns, INGRESS_BRIDGE)) && IsBridge(k3, Ref(ns, EGRESS_BRIDGE))
    ensures Attachable(k4, ns, ingress, egress)
  {
  }

  /** What four attachments in a row leave: an interface is where the last one put it. */
  lemma FourAttached(k1: State, k2: State, k3: State, k4: State, ns: string, ingress: string, egress: string)
    requires ingress != egress
    requires MemberOf(k1, Ref(ns, INGRESS_KERNEL), INGRESS_BRIDGE) && MemberOf(k2, Ref(ns, ingress), INGRESS_BRIDGE)
    requires MemberOf(k3, Ref(ns, egress), EGRESS_BRIDGE) && MemberOf(k4, Ref(ns, EGRESS_KERNEL), EGRESS_BRIDGE)
    requires KeepMembers(k1, k2, Ref(ns, ingress)) && KeepMembers(k2, k3, Ref(ns, egress))
    requires KeepMembers(k3, k4, Ref(ns, EGRESS_KERNEL)) && Attachable(k4, ns, ingress, egress)
    ensures Bridged(k4, ns, ingress, egress)
  {
    KernelNamesDiffer();
  }

  /** Interfaces of one namespace, brought up in order. */
  method BringAllUp(ns: string, names: seq<string>, host: Host, ghost d: set<string>) returns (r: Result)
    requires Wf(host.k) && ns in d
    modifies host
    ensures Extends(old(host.k), host.k, d) && SameMasters(old(host.k), host.k)
    ensures r.Done? ==> forall i :: 0 <= i < |names| ==> IsUp(host.k, Ref(ns, names[i]))
    ensures host.calm && (forall i :: 0 <= i < |names| ==> Ref(ns, names[i]) in old(host.k).ifaces) ==> r.Done?
  {
    ghost var k0 := host.k;
    for index := 0 to |names|
      invariant Extends(k0, host.k, d) && SameMasters(k0, host.k)
      invariant forall i :: 0 <= i < index ==> IsUp(host.k, Ref(ns, names[i]))
    {
      ghost var before := host.k;
      r := BringUp(Ref(ns, names[index]), host, d);
      ExtendsTwice(k0, before, host.k, d);
      if r.Raised? {
        return;
      }
    }
    return Done;
  }

  /** A TAP interface that does not show up in time is a timeout. */
  method WaitForLink(i: Ref, host: Host) returns (r: Result)
    ensures r.Done? ==> i in host.k.ifaces
    ensures host.calm && i in host.k.ifaces && i.ns in host.k.namespaces ==> r.Done?
  {
    var found;
    r, found := host.LinkExists(i);
    if r.Done? && !found {
      r := FAILED;
    }
  }

  function Roles(t: Topology): (r: Option<(string, string)>) {
    var i, e := PortOfRole(t.ports, Ingress), PortOfRole(t.ports, Egress);
    if i.Some? && e.Some? then Some((i.value.name, e.value.name)) else None
  }

  /** The bridges and their members, all up. */
  ghost predicate TapsReady(k: State, ns: string, ingress: string, egress: string) {
    && Bridged(k, ns, ingress, egress)
    && IsUp(k, Ref(ns, INGRESS_BRIDGE)) && IsUp(k, Ref(ns, EGRESS_BRIDGE))
    && forall n :: n in BridgeEnds(ingress, egress) ==> IsUp(k, Ref(ns, n))
  }

  method ReconcileTaps(t: Topology, host: Host) returns (r: Result)
    requires Wf(host.k) && t.dpdkNs in Declared(t) && (Roles(t).Some? ==> Roles(t).value.0 != Roles(t).value.1)
    modifies host
    ensures Extends(old(host.k), host.k, Declared(t))
    ensures r.Done? ==> Roles(t).Some? && TapsReady(host.k, t.dpdkNs, Roles(t).value.0, Roles(t).value.1)
    ensures host.calm && Roles(t).Some? && Attachable(old(host.k), t.dpdkNs, Roles(t).value.0, Roles(t).value.1) ==>
              r.Done?
  {
    ghost var d, k0 := Declared(t), host.k;
    var ns, roles := t.dpdkNs, Roles(t);
    if roles.None? {
      return Raised(false);
    }
    var (ingress, egress) := roles.value;
    r := WaitForLink(Ref(ns, ingress), host);
    if r.Raised? {
      return;
    }
    r := WaitForLink(Ref(ns, egress), host);
    if r.Raised? {
      return;
    }
    r := AttachAll(ns, ingress, egress, host, d);
    if r.Raised? {
      return;
    }
    ghost var k1 := host.k;
    r := BringMembersUp(ns, ingress, egress, host, d);
    ExtendsTwice(k0, k1, host.k, d);
  }

  /** The members and then the bridges are brought up. */
  method BringMembersUp(ns: string, ingress: string, egress: string, host: Host, ghost d: set<string>)
    returns (r: Result)
    requires Wf(host.k) && ns in d && Bridged(host.k, ns, ingress, egress)
    modifies host
    ensures Extends(old(host.k), host.k, d)
    ensures r.Done? ==> TapsReady(host.k, ns, ingress, egress)
    ensures host.calm ==> r.Done?
  {
    ghost var k0 := host.k;
    var names := [INGRESS_KERNEL, ingress, egress, EGRESS_KERNEL, INGRESS_BRIDGE, EGRESS_BRIDGE];
    assert names[..4] == BridgeEnds(ingress, egress);
    assert forall i :: 0 <= i < 4 ==> names[i] in BridgeEnds(ingress, egress) by {
      assert forall i :: 0 <= i < 4 ==> names[i] == names[..4][i];
    }
    r := BringAllUp(ns, names, host, d);
    if r.Done? {
      StillBridged(k0, host.k, ns, ingress, egress);
      assert IsUp(host.k, Ref(ns, names[0])) && IsUp(host.k, Ref(ns, names[1])) && IsUp(host.k, Ref(ns, names[2]));
      assert IsUp(host.k, Ref(ns, names[3])) && IsUp(host.k, Ref(ns, names[4])) && IsUp(host.k, Ref(ns, names[5]));
    }
  }

  lemma StillBridged(k: State, l: State, ns: string, ingress: string, egress: string)
    requires Bridged(k, ns, ingress, egress) && Grows(k, l) && SameMasters(k, l)
    ensures Bridged(l, ns, ingress, egress)
  {
    forall n | n in BridgeEnds(ingress, egress)
      ensures MemberOf(l, Ref(ns, n), BridgeOf(n, ingress, egress))
    {
      assert MemberOf(k, Ref(ns, n), BridgeOf(n, ingress, egress));
    }
  }

  /** The documented layout: each TAP port shares a bridge with the kernel interface of its side. */
  ghost predicate SidesMeet(k: State, ns: string, ingress: string, egress: string) {
    && MemberOf(k, Ref(ns, INGRESS_KERNEL), INGRESS_BRIDGE) && MemberOf(k, Ref(ns, ingress), INGRESS_BRIDGE)
    && MemberOf(k, Ref(ns, EGRESS_KERNEL), EGRESS_BRIDGE) && MemberOf(k, Ref(ns, egress), EGRESS_BRIDGE)
  }

  /**
   A finished reconciliation has the documented layout exactly when no port bears the kernel interface's name of
   the other side: validation accepts such names, and the later attachment then undoes the earlier one.
   */
  lemma LayoutIsAsDocumented(k: State, ns: string, ingress: string, egress: string)
    requires Bridged(k, ns, ingress, egress) && ingress != egress
    ensures SidesMeet(k, ns, ingress, egress) <==> ingress != EGRESS_KERNEL && egress != INGRESS_KERNEL
  {
    KernelNamesDiffer();
    assert |INGRESS_BRIDGE| == 5 && |EGRESS_BRIDGE| == 6;
    var names := BridgeEnds(ingress, egress);
    assert names[0] in names && names[1] in names && names[2] in names && names[3] in names;
  }

  /** Two namespaces and one link; the ingress port bears the name of the egress side's kernel interface. */
  function Crossed(egress: string): (t: Topology) {
    Topology(
      "crossed", "h", Request(None, None, None, None, None, None), ["h", "g"],
      [Link("in", "g:e", "h:veth-in-k", None, None)],
      [DpdkPort("veth-out-k", "h", Ingress), DpdkPort(egress, "h", Egress)], [], Ruleset(None, []), [])
  }

  const CROSSED := Crossed("dtap1")

  /** The same with an egress port named like a bridge. */
  const BRIDGE_NAMED := Crossed(EGRESS_BRIDGE)

  lemma DefaultProfile(r: Request)
    requires r == Request(None, None, None, None, None, None)
    ensures Derive(r, 2).Some?
  {
    var piece := Lcores.Piece("", Some(Lcores.One("1")), "");
    assert [piece][0].item.Some?;
    Lcores.PrintedSpecParses([piece]);
    assert Lcores.Print([piece]) == DEFAULT_LCORES by {
      assert Lcores.PieceText(piece) == "1";
      assert Lcores.Texts([piece]) == ["1"];
    }
    assert Lcores.Ids([piece]) == Lcores.ItemIds(Lcores.One("1")) + Lcores.Ids([]);
    EveryQueuePairFits(r);
  }

  lemma CrossedEnds()
    ensures ParseRef("g:e") == Some(Ref("g", "e")) && ParseRef("h:veth-in-k") == Some(Ref("h", "veth-in-k"))
  {
    assert "g" + ":" + "e" == "g:e" && "h" + ":" + "veth-in-k" == "h:veth-in-k";
    RefRoundTrip(Ref("g", "e"));
    RefRoundTrip(Ref("h", "veth-in-k"));
  }

  lemma CrossedLinkOk()
    ensures LinksOk(CROSSED.links, {"h", "g"}) && Ends(CROSSED.links) == {Ref("g", "e"), Ref("h", "veth-in-k")}
  {
    CrossedEnds();
    assert CROSSED.links == [CROSSED.links[0]];
    OneLinkEnds(CROSSED.links[0]);
    assert "h"[0] != "g"[0];
  }

  lemma CrossedPortsOk(egress: string)
    requires egress != "veth-out-k" && egress != "veth-in-k"
    ensures PortsOk(Crossed(egress).ports, "h", {"h", "g"}, {Ref("g", "e"), Ref("h", "veth-in-k")})
    ensures PortOfRole(Crossed(egress).ports, Ingress) == Some(Crossed(egress).ports[0])
    ensures PortOfRole(Crossed(egress).ports, Egress) == Some(Crossed(egress).ports[1])
  {
    var ports := Crossed(egress).ports;
    KernelNamesDiffer();
    assert |"veth-out-k"| == 10 && |"veth-in-k"| == 9;
    assert PortNames(ports) == ["veth-out-k", egress];
    assert ports[..1] == [ports[0]] && ports[1..] == [ports[1]];
    assert CountRole(ports[..1][..0], Ingress) == 0 && CountRole(ports[..1][..0], Egress) == 0;
    assert CountRole(ports[..1], Ingress) == 1 && CountRole(ports[..1], Egress) == 0;
  }

  /** Acceptance of a topology without routes, captures and rules. */
  lemma PlainAccepted(t: Topology)
    requires t.routes == [] && t.captures == [] && t.rules == Ruleset(None, [])
    requires Distinct(t.namespaces) && t.dpdkNs in Declared(t)
    requires Distinct(LinkNames(t.links)) && LinksOk(t.links, Declared(t))
    requires PortsOk(t.ports, t.dpdkNs, Declared(t), Ends(t.links)) && Derive(t.request, |t.ports|).Some?
    requires Ref(t.dpdkNs, INGRESS_KERNEL) in Ends(t.links) && Ref(t.dpdkNs, EGRESS_KERNEL) in PortRefs(t.ports)
    ensures Acceptable(t)
  {
  }

  lemma CrossedNamespaces()
    ensures Declared(CROSSED) == {"h", "g"} && Distinct(CROSSED.namespaces)
  {
    assert CROSSED.namespaces[0] == "h" && CROSSED.namespaces[1] == "g";
    assert "h"[0] != "g"[0];
  }

  lemma CrossedAccepted(egress: string)
    requires egress != "veth-out-k" && egress != "veth-in-k"
    ensures Acceptable(Crossed(egress)) && Roles(Crossed(egress)) == Some((EGRESS_KERNEL, egress))
  {
    var t := Crossed(egress);
    CrossedNamespaces();
    CrossedLinkOk();
    CrossedPortsOk(egress);
    DefaultProfile(t.request);
    assert t.links == CROSSED.links && t.namespaces == CROSSED.namespaces;
    assert t.ports[0] in t.ports;
    PlainAccepted(t);
  }

  /** Validation accepts a topology whose finished build does not have the documented layout. */
  lemma CrossedIsAccepted()
    ensures Acceptable(CROSSED) && Roles(CROSSED) == Some((EGRESS_KERNEL, "dtap1"))
  {
    assert |"dtap1"| == 5 && |"veth-out-k"| == 10 && |"veth-in-k"| == 9;
    CrossedAccepted("dtap1");
  }

  /** Validation also accepts a port named like a bridge of its namespace. */
  lemma BridgeNamedIsAccepted()
    ensures Acceptable(BRIDGE_NAMED) && !(BridgeRefs("h") !! PortRefs(BRIDGE_NAMED.ports))
  {
    assert |EGRESS_BRIDGE| == 6 && |"veth-out-k"| == 10 && |"veth-in-k"| == 9;
    CrossedAccepted(EGRESS_BRIDGE);
    assert BRIDGE_NAMED.ports[1] in BRIDGE_NAMED.ports;
    assert Ref("h", EGRESS_BRIDGE) in PortRefs(BRIDGE_NAMED.ports) && Ref("h", EGRESS_BRIDGE) in BridgeRefs("h");
  }

  lemma CrossedNeverAsDocumented(k: State)
    requires Bridged(k, "h", EGRESS_KERNEL, "dtap1")
    ensures !SidesMeet(k, "h", EGRESS_KERNEL, "dtap1")
  {
    assert |"dtap1"| == 5 && |EGRESS_KERNEL| == 10;
    LayoutIsAsDocumented(k, "h", EGRESS_KERNEL, "dtap1");
  }

  // ----- routes -----

  function DstOf(r: Route): (d: Dst)
    requires r.dst.Value?
  {
    Dst(r.ns, NetworkOf(r.dst.value))
  }

  predicate RoutesReadable(routes: seq<Route>) {
    forall i :: 0 <= i < |routes| ==> routes[i].dst.Value? && routes[i].via.Value?
  }

  /** The routes after replacing them one by one: for each destination the last gateway stands. */
  function Routed(m: map<Dst, nat>, routes: seq<Route>): (r: map<Dst, nat>)
    requires RoutesReadable(routes)
  {
    if routes == [] then m
    else
      var n := |routes| - 1;
      Routed(m, routes[..n])[DstOf(routes[n]) := routes[n].via.value]
  }

  method EnsureRoutes(t: Topology, host: Host) returns (r: Result)
    requires Wf(host.k) && RoutesReadable(t.routes) && RoutesInside(t)
    modifies host
    ensures Within(old(host.k), host.k, Declared(t))
    ensures host.k == old(host.k).(routes := host.k.routes)
    ensures r.Done? ==> host.k.routes == Routed(old(host.k).routes, t.routes)
    ensures host.calm && Declared(t) <= old(host.k).namespaces ==> r.Done?
  {
    ghost var d, k0 := Declared(t), host.k;
    for index := 0 to |t.routes|
      invariant Within(k0, host.k, d)
      invariant host.k == k0.(routes := Routed(k0.routes, t.routes[..index]))
    {
      var route := t.routes[index];
      ghost var before := host.k;
      assert t.routes[..index + 1][..index] == t.routes[..index];
      r := host.ReplaceRoute(DstOf(route), route.via.value);
      if r.Raised? {
        return;
      }
      SetRouteWithin(before, DstOf(route), route.via.value, d);
      WithinTwice(k0, before, host.k, d);
    }
    assert t.routes[..|t.routes|] == t.routes;
    return Done;
  }

  predicate RoutesInside(t: Topology) {
    forall i :: 0 <= i < |t.routes| ==> t.routes[i].ns in Declared(t)
  }

  lemma SetRouteWithin(k: State, x: Dst, via: nat, d: set<string>)
    requires Wf(k) && x.ns in d && x.ns in k.namespaces
    ensures Within(k, SetRoute(k, x, via), d)
  {
  }

  /** What the list of routes means for the routing table. */
  lemma {:induction false} LastGatewayStands(m: map<Dst, nat>, routes: seq<Route>, i: nat)
    requires RoutesReadable(routes) && i < |routes|
    requires forall j :: i < j < |routes| ==> DstOf(routes[j]) != DstOf(routes[i])
    ensures DstOf(routes[i]) in Routed(m, routes) && Routed(m, routes)[DstOf(routes[i])] == routes[i].via.value
  {
    var n := |routes| - 1;
    if i < n {
      assert DstOf(routes[n]) != DstOf(routes[i]);
      assert forall j :: 0 <= j < n ==> routes[..n][j] == routes[j];
      LastGatewayStands(m, routes[..n], i);
    }
  }
}
