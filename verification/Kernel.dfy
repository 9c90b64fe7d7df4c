/**
 The part of a Linux host that the controller changes: network namespaces, interfaces with veth peers and bridge
 membership, routes, and the datapath process with its TAP interfaces. Commands are the ones that
 ctrld/pktlab_ctrld/util/netns.py issues.
 */
module Kernel {
  import opened JsonGrammar
  import opened TopologyConfig

  datatype Kind = Veth(peer: Ref) | Bridge | Tap

  datatype Iface = Iface(kind: Kind, master: Option<string>, up: bool, addresses: set<Cidr>)

  /** A destination network in a namespace. */
  datatype Dst = Dst(ns: string, net: Network)

  /** `datapath` is the namespace in which the datapath process runs, if it runs. */
  datatype State = State(namespaces: set<string>, ifaces: map<Ref, Iface>, routes: map<Dst, nat>,
                         datapath: Option<string>)

  /** Interfaces and routes live in existing namespaces, and veth ends come in pairs. */
  ghost predicate Wf(k: State) {
    && (forall r :: r in k.ifaces ==> r.ns in k.namespaces)
    && (forall r :: r in k.ifaces && k.ifaces[r].kind.Veth? ==> Paired(k, r))
    && (forall d :: d in k.routes ==> d.ns in k.namespaces)
  }

  predicate Paired(k: State, r: Ref)
    requires r in k.ifaces && k.ifaces[r].kind.Veth?
  {
    var p := k.ifaces[r].kind.peer;
    p in k.ifaces && k.ifaces[p].kind == Veth(r)
  }

  // ----- commands that succeed -----

  function AddNamespace(k: State, n: string): (r: State) {
    k.(namespaces := k.namespaces + {n})
  }

  /** The interface goes away with this namespace: it is inside, or its peer is. */
  predicate GoesWith(i: Iface, r: Ref, n: string) {
    r.ns == n || (i.kind.Veth? && i.kind.peer.ns == n)
  }

  function DelNamespace(k: State, n: string): (r: State) {
    k.(namespaces := k.namespaces - {n},
       ifaces := map r | r in k.ifaces && !GoesWith(k.ifaces[r], r, n) :: k.ifaces[r],
       routes := map d | d in k.routes && d.ns != n :: k.routes[d])
  }

  function AddVeth(k: State, a: Ref, b: Ref): (r: State) {
    k.(ifaces := k.ifaces[a := Iface(Veth(b), None, false, {})][b := Iface(Veth(a), None, false, {})])
  }

  function AddBridge(k: State, b: Ref): (r: State) {
    k.(ifaces := k.ifaces[b := Iface(Bridge, None, false, {})])
  }

  /** What is left of an interface when `gone` is deleted: a member of a deleted bridge loses its master. */
  function Released(i: Iface, r: Ref, gone: Ref): (j: Iface) {
    if r.ns == gone.ns && i.master == Some(gone.iface) then i.(master := None) else i
  }

  function DelIface(k: State, gone: Ref): (r: State) {
    k.(ifaces := map r | r in k.ifaces && r != gone && k.ifaces[r].kind != Veth(gone) :: Released(k.ifaces[r], r, gone))
  }

  function AddAddress(k: State, r: Ref, c: Cidr): (k': State)
    requires r in k.ifaces
  {
    k.(ifaces := k.ifaces[r := k.ifaces[r].(addresses := k.ifaces[r].addresses + {c})])
  }

  function SetMaster(k: State, r: Ref, bridge: string): (k': State)
    requires r in k.ifaces
  {
    k.(ifaces := k.ifaces[r := k.ifaces[r].(master := Some(bridge))])
  }

  function SetUp(k: State, r: Ref): (k': State)
    requires r in k.ifaces
  {
    k.(ifaces := k.ifaces[r := k.ifaces[r].(up := true)])
  }

  function SetRoute(k: State, d: Dst, via: nat): (k': State) {
    k.(routes := k.routes[d := via])
  }

  function AddTap(k: State, r: Ref): (k': State) {
    k.(ifaces := k.ifaces[r := Iface(Tap, None, false, {})])
  }

  /** The end of the datapath process takes its TAP interfaces with it. */
  function StopDatapath(k: State): (r: State) {
    if k.datapath.None? then k
    else
      var ns := k.datapath.value;
      k.(datapath := None,
         ifaces := map r | r in k.ifaces && !(r.ns == ns && k.ifaces[r].kind.Tap?) :: k.ifaces[r])
  }

  // ----- how far a command reaches -----

  /** Nothing crosses the border of the namespaces `d`, and the datapath runs inside it, if at all. */
  ghost predicate Closed(k: State, d: set<string>) {
    && (forall r :: r in k.ifaces && k.ifaces[r].kind.Veth? ==> (r.ns in d <==> k.ifaces[r].kind.peer.ns in d))
    && (k.datapath.Some? ==> k.datapath.value in d)
  }

  ghost predicate SameOutside(k: State, l: State, d: set<string>) {
    && (forall n :: n !in d ==> (n in k.namespaces <==> n in l.namespaces))
    && (forall r: Ref :: r.ns !in d ==> (r in k.ifaces <==> r in l.ifaces))
    && (forall r: Ref :: r.ns !in d && r in k.ifaces && r in l.ifaces ==> k.ifaces[r] == l.ifaces[r])
    && (forall x: Dst :: x.ns !in d ==> (x in k.routes <==> x in l.routes))
    && (forall x: Dst :: x.ns !in d && x in k.routes && x in l.routes ==> k.routes[x] == l.routes[x])
  }

  /** Going from `k` to `l` stays within `d`: what is outside is untouched and the border stays closed. */
  ghost predicate Within(k: State, l: State, d: set<string>) {
    Wf(l) && (Closed(k, d) ==> Closed(l, d) && SameOutside(k, l, d))
  }

  lemma WithinTwice(k: State, l: State, m: State, d: set<string>)
    requires Within(k, l, d) && Within(l, m, d)
    ensures Within(k, m, d)
  {
  }

  lemma WithinLarger(k: State, l: State, d: set<string>, e: set<string>)
    requires d <= e && SameOutside(k, l, d)
    ensures SameOutside(k, l, e)
  {
  }

  /** Nothing is left of the namespaces `d`. */
  predicate Cleared(k: State, d: set<string>) {
    d !! k.namespaces && k.datapath.None?
  }

  /** Two states that agree outside `d` and have nothing inside are the same state. */
  lemma Restored(k: State, l: State, d: set<string>)
    requires Wf(k) && Wf(l) && SameOutside(k, l, d) && Cleared(k, d) && Cleared(l, d)
    ensures k == l
  {
    assert k.namespaces == l.namespaces;
    assert k.ifaces.Keys == l.ifaces.Keys;
    assert k.ifaces == l.ifaces;
    assert k.routes.Keys == l.routes.Keys;
    assert k.routes == l.routes;
  }

  lemma ClearedIsClosed(k: State, d: set<string>)
    requires Wf(k) && Cleared(k, d)
    ensures Closed(k, d)
  {
  }

  lemma DelNamespaceWithin(k: State, n: string, d: set<string>)
    requires Wf(k) && n in d
    ensures Within(k, DelNamespace(k, n), d)
  {
  }

  lemma DelIfaceWithin(k: State, r: Ref, d: set<string>)
    requires Wf(k) && r.ns in d
    ensures Within(k, DelIface(k, r), d)
  {
  }

  lemma AddVethWithin(k: State, a: Ref, b: Ref, d: set<string>)
    requires Wf(k) && a.ns in d && b.ns in d && a.ns in k.namespaces && b.ns in k.namespaces
    requires a != b && a !in k.ifaces && b !in k.ifaces
    ensures Within(k, AddVeth(k, a, b), d)
  {
  }

  lemma StopWithin(k: State, d: set<string>)
    requires Wf(k)
    ensures Within(k, StopDatapath(k), d)
  {
  }
}
