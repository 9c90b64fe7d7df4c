/**
 The topology transaction (ctrld/pktlab_ctrld/topology/manager.py): apply builds a topology or rolls it back,
 destroy tears the recorded one down, and any command on the way may fail.
 */
module TopologyManager {
  import opened JsonGrammar
  import opened TopologyConfig
  import opened RuntimePolicy
  import opened Validation
  import opened Kernel
  import opened Netns
  import opened TopologyOps

  /** The record of an applied topology: the validated document and the profile derived from it. */
  datatype Applied = Applied(path: string, topology: Topology, profile: Profile)

  /** What loading a configuration file gives. */
  datatype Document = Unloadable | Loaded(topology: Topology)

  datatype Outcome = Success | ConfigError | DestroyFailed | BuildFailed(cleanedUp: bool)

  // ----- what a finished build amounts to -----

  ghost predicate RoutesSet(k: State, routes: seq<Route>)
    requires RoutesReadable(routes)
  {
    forall i :: 0 <= i < |routes| && LastFor(routes, i) ==>
      DstOf(routes[i]) in k.routes && k.routes[DstOf(routes[i])] == routes[i].via.value
  }

  /** No later route is for the same destination. */
  ghost predicate LastFor(routes: seq<Route>, i: nat)
    requires RoutesReadable(routes) && i < |routes|
  {
    forall j :: i < j < |routes| ==> DstOf(routes[j]) != DstOf(routes[i])
  }

  /** Every namespace, veth pair, address, bridge membership and route of the topology is there. */
  ghost predicate InPlace(k: State, t: Topology) {
    && Declared(t) <= k.namespaces
    && AllJoined(k, t.links) && (forall i :: 0 <= i < |t.links| ==> EndsUp(k, t.links[i]))
    && Roles(t).Some? && TapsReady(k, t.dpdkNs, Roles(t).value.0, Roles(t).value.1)
    && RoutesReadable(t.routes) && RoutesSet(k, t.routes)
    && k.datapath == Some(t.dpdkNs)
  }

  /** A successful build stays within the declared namespaces and, from a clear start, is complete. */
  ghost predicate BuiltFrom(k: State, l: State, t: Topology) {
    Within(k, l, Declared(t)) && (Cleared(k, Declared(t)) ==> InPlace(l, t))
  }

  /** A teardown stays within the declared namespaces; without an error it found them open and leaves nothing. */
  ghost predicate TornFrom(k: State, l: State, t: Topology, clean: bool) {
    && Within(k, l, Declared(t)) && l.namespaces <= k.namespaces
    && (clean ==> Open(k, t) && Cleared(l, Declared(t)))
  }

  // ----- which topologies can be built -----

  /** No interface of the datapath namespace bears the name of one of its bridges. */
  predicate Buildable(t: Topology) {
    BridgeRefs(t.dpdkNs) !! Ends(t.links) + PortRefs(t.ports)
  }

  lemma {:induction false} OnlyOneOfRole(ports: seq<DpdkPort>, p: DpdkPort)
    requires p in ports && CountRole(ports, p.role) == 1
    ensures PortOfRole(ports, p.role) == Some(p)
  {
    CountFromFront(ports, p.role);
    if ports[0].role == p.role {
      if p != ports[0] {
        assert p in ports[1..];
        NoneOfRole(ports[1..], p);
      }
    } else {
      OnlyOneOfRole(ports[1..], p);
    }
  }

  lemma {:induction false} NoneOfRole(ports: seq<DpdkPort>, p: DpdkPort)
    requires p in ports
    ensures CountRole(ports, p.role) > 0
  {
    CountFromFront(ports, p.role);
    if ports[0] != p {
      NoneOfRole(ports[1..], p);
    }
  }

  /** The two ports of an accepted topology are its only ones, and no link uses their names. */
  lemma PortsAreRoles(t: Topology)
    requires PortsOk(t.ports, t.dpdkNs, Declared(t), Ends(t.links))
    ensures Roles(t).Some?
    ensures var roles := {Ref(t.dpdkNs, Roles(t).value.0), Ref(t.dpdkNs, Roles(t).value.1)};
            PortRefs(t.ports) == roles && roles !! Ends(t.links)
  {
    RolesFound(t.ports, t.dpdkNs, Declared(t), Ends(t.links));
    RoleFound(t.ports, Ingress);
    RoleFound(t.ports, Egress);
    forall p | p in t.ports
      ensures p.ns == t.dpdkNs && (p.name == Roles(t).value.0 || p.name == Roles(t).value.1)
    {
      OnlyOneOfRole(t.ports, p);
      MemberPortOk(t.ports, p, t.dpdkNs, Declared(t), Ends(t.links));
    }
  }

  /** No link end has the name of an interface that is a bridge. */
  lemma EndsAreNoBridges(k: State, links: seq<Link>, ns: string)
    requires AllJoined(k, links) && IsBridge(k, Ref(ns, INGRESS_BRIDGE)) && IsBridge(k, Ref(ns, EGRESS_BRIDGE))
    ensures BridgeRefs(ns) !! Ends(links)
  {
    forall i | i in Ends(links)
      ensures i !in BridgeRefs(ns)
    {
      EndIsVeth(k, links, i);
    }
  }

  lemma MembersAreNoBridges(k: State, ns: string, ingress: string, egress: string)
    requires Bridged(k, ns, ingress, egress)
    ensures BridgeRefs(ns) !! {Ref(ns, ingress), Ref(ns, egress)}
  {
    var names := BridgeEnds(ingress, egress);
    assert names[1] in names && names[2] in names;
    assert CanJoin(k, Ref(ns, names[1])) && CanJoin(k, Ref(ns, names[2]));
  }

  /** A topology that is in place has no interface with a bridge's name. */
  lemma InPlaceIsBuildable(k: State, t: Topology)
    requires InPlace(k, t) && PortsOk(t.ports, t.dpdkNs, Declared(t), Ends(t.links))
    ensures Buildable(t)
  {
    PortsAreRoles(t);
    EndsAreNoBridges(k, t.links, t.dpdkNs);
    MembersAreNoBridges(k, t.dpdkNs, Roles(t).value.0, Roles(t).value.1);
  }

  /** Accepted, and yet it can never be in place. */
  lemma BridgeNamedNeverInPlace(k: State)
    ensures Acceptable(BRIDGE_NAMED) && !Buildable(BRIDGE_NAMED) && !InPlace(k, BRIDGE_NAMED)
  {
    BridgeNamedIsAccepted();
    if InPlace(k, BRIDGE_NAMED) {
      InPlaceIsBuildable(k, BRIDGE_NAMED);
    }
  }

  /** What links and bridges of a clear build leave for the attachments. */
  ghost predicate Prepared(k: State, t: Topology) {
    && Declared(t) <= k.namespaces && AllJoined(k, t.links)
    && (forall i :: i in k.ifaces && i.ns == t.dpdkNs ==> i in Ends(t.links) || i in BridgeRefs(t.dpdkNs))
    && (Buildable(t) ==> IsBridge(k, Ref(t.dpdkNs, INGRESS_BRIDGE)) && IsBridge(k, Ref(t.dpdkNs, EGRESS_BRIDGE)))
  }

  /** With both TAPs there, everything can be attached. */
  lemma PreparedIsAttachable(k: State, l: State, t: Topology)
    requires Prepared(k, t) && Buildable(t) && PortsOk(t.ports, t.dpdkNs, Declared(t), Ends(t.links))
    requires Roles(t).Some? && Launched(k, l, t.dpdkNs, {Roles(t).value.0, Roles(t).value.1})
    requires Ref(t.dpdkNs, Roles(t).value.0) in l.ifaces && Ref(t.dpdkNs, Roles(t).value.1) in l.ifaces
    requires Ref(t.dpdkNs, INGRESS_KERNEL) in Ends(t.links) + PortRefs(t.ports)
    requires Ref(t.dpdkNs, EGRESS_KERNEL) in Ends(t.links) + PortRefs(t.ports)
    ensures Attachable(l, t.dpdkNs, Roles(t).value.0, Roles(t).value.1)
  {
    PortsAreRoles(t);
    forall i | i in PortRefs(t.ports)
      ensures CanJoin(l, i)
    {
      assert i !in k.ifaces;
    }
    forall i | i in Ends(t.links)
      ensures CanJoin(l, i)
    {
      EndIsVeth(k, t.links, i);
    }
  }

  lemma EndIsVeth(k: State, links: seq<Link>, i: Ref)
    requires AllJoined(k, links) && i in Ends(links)
    ensures i in k.ifaces && k.ifaces[i].kind.Veth?
  {
    var l :| l in links && (SplitRef(l.a) == i || SplitRef(l.b) == i);
    var n :| 0 <= n < |links| && links[n] == l;
    assert Joined(k, links[n]);
  }

  /** What acceptance means for the steps of a build. */
  lemma AcceptedForBuild(t: Topology)
    requires Acceptable(t)
    ensures LinksOk(t.links, Declared(t)) && t.dpdkNs in Declared(t)
    ensures Roles(t).Some? && Roles(t).value.0 != Roles(t).value.1
    ensures RoutesReadable(t.routes) && RoutesInside(t)
  {
    RolesNeverMissing(t);
    forall i | 0 <= i < |t.routes|
      ensures t.routes[i].dst.Value? && t.routes[i].via.Value? && t.routes[i].ns in Declared(t)
    {
      assert RouteOk(t.routes[i], Declared(t), Networks(t.links));
    }
  }

  lemma ClearStart(k: State, t: Topology)
    requires Wf(k) && Cleared(k, Declared(t)) && LinksOk(t.links, Declared(t))
    ensures Ends(t.links) !! k.ifaces.Keys
  {
    forall l | l in t.links
      ensures SplitRef(l.a).ns in Declared(t) && SplitRef(l.b).ns in Declared(t)
    {
      var i :| 0 <= i < |t.links| && t.links[i] == l;
      assert LinkOk(t.links[i], Declared(t));
    }
  }

  /** The record holds an accepted topology and the profile its request resolves to. */
  ghost predicate InForce(a: Applied) {
    Acceptable(a.topology) && Derive(a.topology.request, |a.topology.ports|) == Some(a.profile)
  }

  // ----- the manager -----

  class Manager {
    const host: Host
    var current: Option<Applied>

    ghost predicate Valid()
      reads this, host
    {
      Wf(host.k) && (current.Some? ==> InForce(current.value))
    }

    constructor (host: Host)
      requires Wf(host.k)
      ensures this.host == host && current == None && Valid()
    {
      this.host := host;
      current := None;
    }

    /**
     The steps of a build, up to the first that raises. From a clear start it can only succeed on a buildable
     topology, and does so when no command fails.
     */
    method Build(t: Topology) returns (r: Result)
      requires Wf(host.k) && Acceptable(t)
      modifies host
      ensures Within(old(host.k), host.k, Declared(t))
      ensures r.Done? ==> BuiltFrom(old(host.k), host.k, t)
      ensures Cleared(old(host.k), Declared(t)) && r.Done? ==> Buildable(t)
      ensures Cleared(old(host.k), Declared(t)) && host.calm && Buildable(t) ==> r.Done?
      ensures Cleared(old(host.k), Declared(t)) && host.calm ==> Declared(t) <= host.k.namespaces
    {
      AcceptedForBuild(t);
      ghost var d, k0 := Declared(t), host.k;
      ghost var clear := Cleared(k0, d);
      r := Prepare(t);
      if r.Raised? {
        return;
      }
      ghost var k1 := host.k;
      r := Launch(t);
      WithinTwice(k0, k1, host.k, d);
      if r.Raised? {
        return;
      }
      ghost var k2 := host.k;
      if clear {
        JoinedGrows(k1, k2, t.links);
        if host.calm && Buildable(t) {
          PreparedIsAttachable(k1, k2, t);
        }
      }
      r := Finish(t);
      WithinTwice(k0, k2, host.k, d);
      if r.Done? && clear {
        JoinedGrows(k2, host.k, t.links);
        InPlaceIsBuildable(host.k, t);
      }
    }

    /** Namespaces, links and bridges. */
    method Prepare(t: Topology) returns (r: Result)
      requires Wf(host.k) && LinksOk(t.links, Declared(t)) && t.dpdkNs in Declared(t)
      modifies host
      ensures Within(old(host.k), host.k, Declared(t)) && host.k.datapath == old(host.k).datapath
      ensures r.Done? ==> Declared(t) <= host.k.namespaces
      ensures Cleared(old(host.k), Declared(t)) && r.Done? ==> Prepared(host.k, t)
      ensures Cleared(old(host.k), Declared(t)) && host.calm ==> r.Done?
    {
      ghost var d, k0 := Declared(t), host.k;
      ghost var clear := Cleared(k0, d);
      if clear {
        ClearStart(k0, t);
      }
      r := EnsureNamespaces(t, host);
      if r.Raised? {
        return;
      }
      ghost var k1 := host.k;
      r := EnsureLinks(t, host);
      WithinTwice(k0, k1, host.k, d);
      if r.Raised? {
        return;
      }
      ghost var k2 := host.k;
      r := EnsureBridges(t, host);
      WithinTwice(k0, k2, host.k, d);
      if r.Done? && clear {
        JoinedGrows(k2, host.k, t.links);
        ClearlyPrepared(k0, k2, host.k, t);
      }
    }

    /** The datapath callback, with the port names looked up. */
    method Launch(t: Topology) returns (r: Result)
      requires Wf(host.k) && t.dpdkNs in Declared(t) && Roles(t).Some?
      modifies host
      ensures Within(old(host.k), host.k, Declared(t))
      ensures r.Done? ==> host.k.datapath == Some(t.dpdkNs) && host.k.namespaces == old(host.k).namespaces
      ensures r.Done? && old(host.k).datapath.None? ==>
                && Grows(old(host.k), host.k)
                && Launched(old(host.k), host.k, t.dpdkNs, {Roles(t).value.0, Roles(t).value.1})
      ensures host.calm && t.dpdkNs in old(host.k).namespaces ==>
                && r.Done?
                && Ref(t.dpdkNs, Roles(t).value.0) in host.k.ifaces && Ref(t.dpdkNs, Roles(t).value.1) in host.k.ifaces
    {
      ghost var k0 := host.k;
      var (ingress, egress) := Roles(t).value;
      r := host.StartDatapath(t.dpdkNs, ingress, egress);
      StopWithin(k0, Declared(t));
      if Launched(StopDatapath(k0), host.k, t.dpdkNs, {ingress, egress}) {
        LaunchedWithin(StopDatapath(k0), host.k, t.dpdkNs, {ingress, egress}, Declared(t));
        WithinTwice(k0, StopDatapath(k0), host.k, Declared(t));
      }
    }

    /** What follows the start of the datapath: bridges and TAPs, link ends, routes. */
    method Finish(t: Topology) returns (r: Result)
      requires Wf(host.k) && t.dpdkNs in Declared(t) && LinksOk(t.links, Declared(t))
      requires Roles(t).Some? && Roles(t).value.0 != Roles(t).value.1
      requires RoutesReadable(t.routes) && RoutesInside(t)
      modifies host
      ensures Within(old(host.k), host.k, Declared(t)) && Grows(old(host.k), host.k)
      ensures host.k.namespaces == old(host.k).namespaces && host.k.datapath == old(host.k).datapath
      ensures r.Done? ==>
                && TapsReady(host.k, t.dpdkNs, Roles(t).value.0, Roles(t).value.1) && RoutesSet(host.k, t.routes)
                && forall i :: 0 <= i < |t.links| ==> EndsUp(host.k, t.links[i])
      ensures host.calm && Attachable(old(host.k), t.dpdkNs, Roles(t).value.0, Roles(t).value.1)
              && AllJoined(old(host.k), t.links) && Declared(t) <= old(host.k).namespaces ==>
                r.Done?
    {
      ghost var d, k0 := Declared(t), host.k;
      r := ReconcileTaps(t, host);
      if r.Raised? {
        return;
      }
      ghost var k1 := host.k;
      if AllJoined(k0, t.links) {
        JoinedGrows(k0, k1, t.links);
      }
      r := BringLinkEndpointsUp(t, host);
      ExtendsTwice(k0, k1, host.k, d);
      if r.Raised? {
        return;
      }
      ghost var k2 := host.k;
      StillReady(k1, k2, t.dpdkNs, Roles(t).value.0, Roles(t).value.1);
      r := EnsureRoutes(t, host);
      WithinTwice(k0, k2, host.k, d);
      if r.Done? {
        RoutedIsSet(k2.routes, t.routes, host.k);
        EndsStayUp(k2, host.k, t.links, |t.links|);
        StillReady(k2, host.k, t.dpdkNs, Roles(t).value.0, Roles(t).value.1);
      }
    }

    method StopPhase(ghost d: set<string>) returns (r: Result)
      requires Wf(host.k)
      modifies host
      ensures Within(old(host.k), host.k, d) && host.k.namespaces == old(host.k).namespaces
      ensures r.Done? ==> host.k.datapath.None?
      ensures host.calm ==> r.Done?
    {
      StopWithin(host.k, d);
      r := host.StopRunning();
    }

    /**
     All three phases are attempted: each does its part whatever the others did, and what is counted are the
     phases that raised. When no command fails, only missing namespaces can be counted.
     */
    method DestroyLocked(t: Topology)
      returns (errors: nat, ghost stop: Result, ghost links: Result, ghost spaces: Result)
      requires Wf(host.k) && Acceptable(t)
      modifies host
      ensures TornFrom(old(host.k), host.k, t, errors == 0)
      ensures errors == Count(stop) + Count(links) + Count(spaces)
      ensures stop.Done? ==> host.k.datapath.None?
      ensures spaces.Done? ==> Declared(t) !! host.k.namespaces
      ensures links.Done? ==> Open(old(host.k), t)
      ensures host.calm ==> stop.Done? && (links.Done? <==> Open(old(host.k), t))
      ensures host.calm && DeletesWork(host, Declared(t)) ==> spaces.Done?
      ensures forall i: nat :: StopsAt(host, t.namespaces, i, old(host.k).namespaces) ==>
                errors > 0 && GoneBehind(host.k, t.namespaces, i)
    {
      AcceptedForBuild(t);
      ghost var d, k0 := Declared(t), host.k;
      errors := 0;
      var r := StopPhase(d);
      stop := r;
      if r.Raised? {
        errors := errors + 1;
      }
      ghost var k1 := host.k;
      r := DestroyLinksAndBridges(t, host);
      links := r;
      WithinTwice(k0, k1, host.k, d);
      if r.Raised? {
        errors := errors + 1;
      }
      ghost var k2 := host.k;
      assert k2.namespaces == k0.namespaces;
      r := DestroyNamespaces(t, host);
      spaces := r;
      WithinTwice(k0, k2, host.k, d);
      if r.Raised? {
        errors := errors + 1;
      }
    }

    /**
     `between` is the host after the teardown of the topology that was applied before, and `broken` the host when a
     build gave up: the rollback is a teardown from there, so it reports an error unless that state is open.
     */
    method Apply(path: string, document: Document) returns (o: Outcome, ghost between: State, ghost broken: State)
      requires Valid()
      modifies this, host
      ensures Valid()
      ensures ApplyStep(old(host.k), old(current), path, document, o, between, host.k, current)
      ensures o.BuildFailed? ==>
                && Within(between, broken, Declared(document.topology))
                && TornFrom(broken, host.k, document.topology, o.cleanedUp)
      ensures o.BuildFailed? && host.calm && DeletesWork(host, Declared(document.topology)) ==>
                (o.cleanedUp <==> Open(broken, document.topology))
      ensures Undisturbed(host, old(host.k), old(current), document) ==>
                o == if Buildable(document.topology) then Success else BuildFailed(true)
      ensures host.calm && old(current).None? && ReadyTo(old(host.k), document) && Buildable(document.topology) ==>
                o.Success?
    {
      if document.Unloadable? {
        return ConfigError, host.k, host.k;
      }
      var t := document.topology;
      var issues, profile := ValidateTopology(t);
      if issues != [] || profile.None? {
        return ConfigError, host.k, host.k;
      }
      var errors := Retire();
      between := host.k;
      if errors > 0 {
        return DestroyFailed, host.k, host.k;
      }
      if FreshFor(old(host.k), old(current), t) {
        FreshMeansClear(old(host.k), old(current), between, t);
      }
      o, broken := BuildOrRollBack(path, t, profile.value);
    }

    /** With nothing on record: the build, and its record or its rollback. */
    method BuildOrRollBack(path: string, t: Topology, profile: Profile) returns (o: Outcome, ghost broken: State)
      requires Valid() && current.None? && InForce(Applied(path, t, profile))
      modifies this, host
      ensures Valid() && (o.Success? || o.BuildFailed?)
      ensures o.Success? ==> current == Some(Applied(path, t, profile)) && BuiltFrom(old(host.k), host.k, t)
      ensures o.BuildFailed? ==>
                && current == None && Undone(old(host.k), host.k, t, o.cleanedUp)
                && Within(old(host.k), broken, Declared(t)) && TornFrom(broken, host.k, t, o.cleanedUp)
      ensures o.BuildFailed? && host.calm && DeletesWork(host, Declared(t)) ==> (o.cleanedUp <==> Open(broken, t))
      ensures Cleared(old(host.k), Declared(t)) && o.Success? ==> Buildable(t)
      ensures Cleared(old(host.k), Declared(t)) && host.calm && Buildable(t) ==> o.Success?
      ensures Cleared(old(host.k), Declared(t)) && host.calm && DeletesWork(host, Declared(t)) && !Buildable(t) ==>
                o == BuildFailed(true)
    {
      ghost var between := host.k;
      var r := Build(t);
      broken := host.k;
      if r.Raised? {
        var clean := RollBack(t, between);
        AcceptedForBuild(t);
        if Declared(t) <= broken.namespaces {
          DeclaredIsOpen(broken, t);
        }
        return BuildFailed(clean), broken;
      }
      current := Some(Applied(path, t, profile));
      o := Success;
    }

    /** Cleans up after a build that started from `between` and gave up. */
    method RollBack(t: Topology, ghost between: State) returns (clean: bool)
      requires Wf(host.k) && Acceptable(t) && Within(between, host.k, Declared(t))
      modifies host
      ensures TornFrom(old(host.k), host.k, t, clean) && Undone(between, host.k, t, clean)
      ensures host.calm && DeletesWork(host, Declared(t)) ==> (clean <==> Open(old(host.k), t))
    {
      ghost var broken := host.k;
      var errors;
      ghost var stop, links, spaces;
      errors, stop, links, spaces := DestroyLocked(t);
      clean := errors == 0;
      RolledBack(between, broken, host.k, t, clean);
    }

    /** Tears down the topology on record, if there is one, and forgets it when that went without an error. */
    method Retire() returns (errors: nat)
      requires Valid()
      modifies this, host
      ensures Valid() && Retired(old(host.k), old(current), host.k, errors == 0)
      ensures current == if errors == 0 then None else old(current)
      ensures errors > 0 ==> old(current).Some?
      ensures Deletable(host, old(current)) ==> (errors == 0 <==> Open(old(host.k), old(current).value.topology))
      ensures old(current).Some? ==>
                forall i: nat :: StopsAt(host, old(current).value.topology.namespaces, i, old(host.k).namespaces) ==>
                  errors > 0 && GoneBehind(host.k, old(current).value.topology.namespaces, i)
    {
      errors := 0;
      if current.Some? {
        ghost var stop, links, spaces;
        errors, stop, links, spaces := DestroyLocked(current.value.topology);
        if errors == 0 {
          current := None;
        }
      }
    }

    method Destroy() returns (o: Outcome)
      requires Valid()
      modifies this, host
      ensures Valid()
      ensures DestroyStep(old(host.k), old(current), o, host.k, current)
      ensures Deletable(host, old(current)) ==> (o.Success? <==> Open(old(host.k), old(current).value.topology))
      ensures old(current).Some? ==>
                forall i: nat :: StopsAt(host, old(current).value.topology.namespaces, i, old(host.k).namespaces) ==>
                  o.DestroyFailed? && GoneBehind(host.k, old(current).value.topology.namespaces, i)
    {
      var errors := Retire();
      o := if errors > 0 then DestroyFailed else Success;
    }
  }

  function Count(r: Result): (n: nat) {
    if r.Raised? then 1 else 0
  }

  /** A host with every declared namespace is one whose teardown finds all it asks about. */
  lemma DeclaredIsOpen(k: State, t: Topology)
    requires Declared(t) <= k.namespaces && LinksOk(t.links, Declared(t)) && t.dpdkNs in Declared(t)
    ensures Open(k, t)
  {
    forall i | 0 <= i < |t.links|
      ensures SplitRef(t.links[i].a).ns in k.namespaces
    {
      assert LinkOk(t.links[i], Declared(t));
    }
  }

  lemma RolledBack(k: State, broken: State, l: State, t: Topology, clean: bool)
    requires Within(k, broken, Declared(t)) && TornFrom(broken, l, t, clean)
    ensures Undone(k, l, t, clean)
  {
    WithinTwice(k, broken, l, Declared(t));
  }

  lemma StillReady(k: State, l: State, ns: string, ingress: string, egress: string)
    requires TapsReady(k, ns, ingress, egress) && Grows(k, l) && SameMasters(k, l)
    ensures TapsReady(l, ns, ingress, egress)
  {
    StillBridged(k, l, ns, ingress, egress);
    forall n | n in BridgeEnds(ingress, egress)
      ensures IsUp(l, Ref(ns, n))
    {
      assert IsUp(k, Ref(ns, n));
    }
  }

  /** Links and bridges of a clear build, taken together. */
  lemma ClearlyPrepared(k0: State, k2: State, k3: State, t: Topology)
    requires Wf(k0) && Cleared(k0, Declared(t)) && t.dpdkNs in Declared(t)
    requires Declared(t) <= k3.namespaces && AllJoined(k3, t.links)
    requires k2.ifaces.Keys <= k0.ifaces.Keys + Ends(t.links) && k3.ifaces.Keys <= k2.ifaces.Keys + BridgeRefs(t.dpdkNs)
    requires forall i :: i in BridgeRefs(t.dpdkNs) ==> i in k3.ifaces && (i !in k2.ifaces ==> IsBridge(k3, i))
    ensures Prepared(k3, t)
  {
    assert forall i :: i in k0.ifaces ==> i.ns != t.dpdkNs;
    assert Ref(t.dpdkNs, INGRESS_BRIDGE) in BridgeRefs(t.dpdkNs);
    assert Ref(t.dpdkNs, EGRESS_BRIDGE) in BridgeRefs(t.dpdkNs);
  }

  lemma RoutedIsSet(m: map<Dst, nat>, routes: seq<Route>, k: State)
    requires RoutesReadable(routes) && k.routes == Routed(m, routes)
    ensures RoutesSet(k, routes)
  {
    forall i | 0 <= i < |routes| && LastFor(routes, i)
      ensures DstOf(routes[i]) in k.routes && k.routes[DstOf(routes[i])] == routes[i].via.value
    {
      LastGatewayStands(m, routes, i);
    }
  }

  // ----- one operation as a relation -----

  /** The teardown that an apply or a destroy owes to the topology on record. */
  ghost predicate Retired(k: State, current: Option<Applied>, l: State, clean: bool) {
    match current
    case None => l == k
    case Some(a) => TornFrom(k, l, a.topology, clean)
  }

  /** A build that failed half-way and was rolled back. */
  ghost predicate Undone(k: State, l: State, t: Topology, clean: bool) {
    Within(k, l, Declared(t)) && (clean ==> Cleared(l, Declared(t)))
  }

  ghost predicate ApplyStep(k: State, current: Option<Applied>, path: string, document: Document, o: Outcome,
                            between: State, k': State, current': Option<Applied>)
  {
    match o
    case ConfigError =>
      (document.Unloadable? || !Acceptable(document.topology)) && k' == k && current' == current
    case DestroyFailed =>
      && document.Loaded? && Acceptable(document.topology) && current.Some? && current' == current
      && Retired(k, current, k', false)
    case BuildFailed(cleanedUp) =>
      && document.Loaded? && Acceptable(document.topology) && current' == None
      && Wf(between) && Retired(k, current, between, true) && Undone(between, k', document.topology, cleanedUp)
    case Success =>
      && document.Loaded? && Acceptable(document.topology)
      && current'.Some? && current'.value.path == path && current'.value.topology == document.topology
      && InForce(current'.value)
      && Wf(between) && Retired(k, current, between, true) && BuiltFrom(between, k', document.topology)
  }

  ghost predicate DestroyStep(k: State, current: Option<Applied>, o: Outcome, k': State, current': Option<Applied>) {
    match o
    case Success => Retired(k, current, k', true) && current' == None
    case DestroyFailed => current.Some? && Retired(k, current, k', false) && current' == current
    case _ => false
  }

  // ----- theorems about operations -----

  /**
   A clear start for applying `t`: a namespace it declares exists only if the topology on record declares it too,
   nothing crosses the border of that topology, and without one no datapath runs.
   */
  ghost predicate FreshFor(k: State, current: Option<Applied>, t: Topology) {
    match current
    case None => Cleared(k, Declared(t))
    case Some(a) =>
      && Closed(k, Declared(a.topology))
      && forall n :: n in Declared(t) && n in k.namespaces ==> n in Declared(a.topology)
  }

  /** A topology is on record on a calm host that can delete its namespaces. */
  ghost predicate Deletable(host: Host, current: Option<Applied>) {
    current.Some? && host.calm && DeletesWork(host, Declared(current.value.topology))
  }

  ghost predicate ReadyTo(k: State, document: Document) {
    document.Loaded? && Acceptable(document.topology) && FreshFor(k, None, document.topology)
  }

  /** An accepted topology, a clear start for it, and a calm host that can delete what is to be deleted. */
  ghost predicate Undisturbed(host: Host, k: State, current: Option<Applied>, document: Document) {
    && document.Loaded? && Acceptable(document.topology) && ReadyFor(k, current, document.topology)
    && host.calm && DeletesWork(host, Declared(document.topology)) && (current.Some? ==> Deletable(host, current))
  }

  /** A clear start, with a topology on record that can be torn down. */
  ghost predicate ReadyFor(k: State, current: Option<Applied>, t: Topology) {
    FreshFor(k, current, t) && (current.Some? ==> Open(k, current.value.topology))
  }

  lemma FreshMeansClear(k: State, current: Option<Applied>, between: State, t: Topology)
    requires FreshFor(k, current, t) && Retired(k, current, between, true)
    ensures Cleared(between, Declared(t))
  {
  }

  /** An apply that returns has built everything. */
  lemma ApplyBuildsEverything(k: State, current: Option<Applied>, path: string, t: Topology, between: State, k': State,
                              current': Option<Applied>)
    ensures ApplyStep(k, current, path, Loaded(t), Success, between, k', current') && FreshFor(k, current, t) ==>
              InPlace(k', t) && current'.Some? && current'.value.path == path && current'.value.topology == t
  {
    if ApplyStep(k, current, path, Loaded(t), Success, between, k', current') && FreshFor(k, current, t) {
      FreshMeansClear(k, current, between, t);
    }
  }

  /** A failed build whose cleanup reports no error leaves the host exactly as the build found it, and no record. */
  lemma FailedBuildIsUndone(k: State, current: Option<Applied>, path: string, t: Topology, between: State, k': State,
                            current': Option<Applied>)
    ensures ApplyStep(k, current, path, Loaded(t), BuildFailed(true), between, k', current')
            && FreshFor(k, current, t) ==>
              k' == between && current' == None && Declared(t) !! k'.namespaces
  {
    if ApplyStep(k, current, path, Loaded(t), BuildFailed(true), between, k', current') && FreshFor(k, current, t) {
      FreshMeansClear(k, current, between, t);
      ClearedIsClosed(between, Declared(t));
      Restored(between, k', Declared(t));
    }
  }

  /** Apply followed by a successful destroy restores the host. */
  lemma DestroyUndoesApply(k: State, path: string, t: Topology, between: State, k': State, current': Option<Applied>,
                           k'': State, current'': Option<Applied>)
    ensures Wf(k) && FreshFor(k, None, t) && ApplyStep(k, None, path, Loaded(t), Success, between, k', current')
            && DestroyStep(k', current', Success, k'', current'') ==>
              k'' == k && current'' == None
  {
    if Wf(k) && FreshFor(k, None, t) && ApplyStep(k, None, path, Loaded(t), Success, between, k', current')
      && DestroyStep(k', current', Success, k'', current'')
    {
      ClearedIsClosed(k, Declared(t));
      WithinTwice(k, k', k'', Declared(t));
      Restored(k, k'', Declared(t));
    }
  }

  function DeclaredBy(current: Option<Applied>): (d: set<string>) {
    match current case Some(a) => Declared(a.topology) case None => {}
  }

  lemma RetiredOutside(k: State, current: Option<Applied>, l: State, clean: bool)
    requires Retired(k, current, l, clean) && (current.Some? ==> Closed(k, DeclaredBy(current)))
    ensures SameOutside(k, l, DeclaredBy(current))
  {
  }

  lemma OutsideTwice(k: State, l: State, m: State, d: set<string>)
    requires SameOutside(k, l, d) && SameOutside(l, m, d)
    ensures SameOutside(k, m, d)
  {
  }

  /** However an apply ends, namespaces that neither topology declares are untouched. */
  lemma UndeclaredUntouched(k: State, current: Option<Applied>, path: string, t: Topology, o: Outcome, between: State,
                            k': State, current': Option<Applied>)
    ensures Wf(k) && ApplyStep(k, current, path, Loaded(t), o, between, k', current') && FreshFor(k, current, t) ==>
              SameOutside(k, k', DeclaredBy(current) + Declared(t))
  {
    if Wf(k) && ApplyStep(k, current, path, Loaded(t), o, between, k', current') && FreshFor(k, current, t) {
      var all := DeclaredBy(current) + Declared(t);
      if o.DestroyFailed? {
        RetiredOutside(k, current, k', false);
        WithinLarger(k, k', DeclaredBy(current), all);
      } else if !o.ConfigError? {
        RetiredOutside(k, current, between, true);
        WithinLarger(k, between, DeclaredBy(current), all);
        FreshMeansClear(k, current, between, t);
        ClearedIsClosed(between, Declared(t));
        WithinLarger(between, k', Declared(t), all);
        OutsideTwice(k, between, k', all);
      }
    }
  }

  /** After a success the next apply of a topology over the same namespaces starts clear again. */
  lemma SuccessStaysClosed(k: State, current: Option<Applied>, path: string, t: Topology, between: State, k': State,
                           current': Option<Applied>, next: Topology)
    ensures ApplyStep(k, current, path, Loaded(t), Success, between, k', current') && FreshFor(k, current, t)
            && Declared(next) * k'.namespaces <= Declared(t) ==>
              FreshFor(k', current', next)
  {
    if ApplyStep(k, current, path, Loaded(t), Success, between, k', current') && FreshFor(k, current, t) {
      FreshMeansClear(k, current, between, t);
      ClearedIsClosed(between, Declared(t));
    }
  }

  // ----- whole runs -----

  datatype Operation = ApplyFile(path: string, document: Document) | DestroyCurrent

  /** The host and the record between two operations. */
  datatype Point = Point(host: State, record: Option<Applied>)

  ghost predicate OperationStep(p: Point, op: Operation, o: Outcome, between: State, p': Point) {
    match op
    case ApplyFile(path, document) => ApplyStep(p.host, p.record, path, document, o, between, p'.host, p'.record)
    case DestroyCurrent => DestroyStep(p.host, p.record, o, p'.host, p'.record)
  }

  /** Operations with their outcomes, and the points they lead through. */
  ghost predicate Ran(ops: seq<Operation>, outcomes: seq<Outcome>, between: seq<State>, points: seq<Point>) {
    && |outcomes| == |between| == |ops| && |points| == |ops| + 1
    && forall i :: 0 <= i < |ops| ==> OperationStep(points[i], ops[i], outcomes[i], between[i], points[i + 1])
  }

  /** Any sequence of operations is a run from where the manager was to where it is. */
  method Session(m: Manager, ops: seq<Operation>)
    returns (outcomes: seq<Outcome>, ghost between: seq<State>, ghost points: seq<Point>)
    requires m.Valid()
    modifies m, m.host
    ensures m.Valid() && Ran(ops, outcomes, between, points)
    ensures points[0] == Point(old(m.host.k), old(m.current)) && points[|ops|] == Point(m.host.k, m.current)
  {
    outcomes, between, points := [], [], [Point(m.host.k, m.current)];
    for index := 0 to |ops|
      invariant m.Valid() && Ran(ops[..index], outcomes, between, points)
      invariant points[0] == Point(old(m.host.k), old(m.current)) && points[index] == Point(m.host.k, m.current)
    {
      ghost var before := Point(m.host.k, m.current);
      var o;
      ghost var mid := m.host.k;
      match ops[index] {
        case ApplyFile(path, document) =>
          ghost var broken;
          o, mid, broken := m.Apply(path, document);
        case DestroyCurrent => o := m.Destroy();
      }
      OneMoreStep(ops, index, outcomes, between, points, o, mid, Point(m.host.k, m.current));
      outcomes, between, points := outcomes + [o], between + [mid], points + [Point(m.host.k, m.current)];
    }
    assert ops[..|ops|] == ops;
  }

  lemma OneMoreStep(ops: seq<Operation>, n: nat, outcomes: seq<Outcome>, between: seq<State>, points: seq<Point>,
                    o: Outcome, mid: State, p: Point)
    requires n < |ops| && Ran(ops[..n], outcomes, between, points) && OperationStep(points[n], ops[n], o, mid, p)
    ensures Ran(ops[..n + 1], outcomes + [o], between + [mid], points + [p])
  {
    var ops', outcomes', between', points' := ops[..n + 1], outcomes + [o], between + [mid], points + [p];
    forall i | 0 <= i < n + 1
      ensures OperationStep(points'[i], ops'[i], outcomes'[i], between'[i], points'[i + 1])
    {
      if i < n {
        assert OperationStep(points[i], ops[..n][i], outcomes[i], between[i], points[i + 1]);
      }
    }
  }

  /** An apply that succeeded. */
  predicate Builds(op: Operation, o: Outcome) {
    op.ApplyFile? && o.Success?
  }

  /** The topology that was on record before has been torn down without an error. */
  predicate Retires(op: Operation, o: Outcome) {
    if op.ApplyFile? then o.Success? || o.BuildFailed? else o.Success?
  }

  /** Operation `i` applied a topology and none of the first `n` after it tore that down. */
  ghost predicate StandsTo(ops: seq<Operation>, outcomes: seq<Outcome>, i: nat, n: nat)
    requires |outcomes| == |ops| && n <= |ops|
  {
    i < n && Builds(ops[i], outcomes[i]) && forall j :: i < j < n ==> !Retires(ops[j], outcomes[j])
  }

  ghost predicate Stands(ops: seq<Operation>, outcomes: seq<Outcome>, i: nat)
    requires |outcomes| == |ops|
  {
    StandsTo(ops, outcomes, i, |ops|)
  }

  ghost predicate NeverRetired(ops: seq<Operation>, outcomes: seq<Outcome>, n: nat)
    requires |outcomes| == |ops| && n <= |ops|
  {
    forall j :: 0 <= j < n ==> !Retires(ops[j], outcomes[j])
  }

  predicate RecordOf(record: Option<Applied>, op: Operation) {
    && record.Some? && op.ApplyFile? && op.document.Loaded?
    && record.value.path == op.path && record.value.topology == op.document.topology
  }

  /** What one operation does to the record, whatever it does to the host. */
  lemma RecordStep(p: Point, op: Operation, o: Outcome, between: State, p': Point)
    requires OperationStep(p, op, o, between, p')
    ensures Builds(op, o) ==> RecordOf(p'.record, op)
    ensures Retires(op, o) && !Builds(op, o) ==> p'.record == None
    ensures !Retires(op, o) ==> p'.record == p.record
  {
  }

  lemma {:induction false} StandingStays(ops: seq<Operation>, outcomes: seq<Outcome>, between: seq<State>,
                                         points: seq<Point>, i: nat, n: nat)
    requires Ran(ops, outcomes, between, points) && n <= |ops| && StandsTo(ops, outcomes, i, n)
    ensures RecordOf(points[n].record, ops[i])
  {
    RecordStep(points[n - 1], ops[n - 1], outcomes[n - 1], between[n - 1], points[n]);
    if i < n - 1 {
      StandingStays(ops, outcomes, between, points, i, n - 1);
    }
  }

  /** What is on record was applied by an operation that still stands, or was there from the start. */
  lemma {:induction false} RecordStands(ops: seq<Operation>, outcomes: seq<Outcome>, between: seq<State>,
                                        points: seq<Point>, n: nat)
    requires Ran(ops, outcomes, between, points) && n <= |ops| && points[n].record.Some?
    ensures (exists i: nat :: StandsTo(ops, outcomes, i, n))
         || (NeverRetired(ops, outcomes, n) && points[n].record == points[0].record)
  {
    if n > 0 {
      RecordStep(points[n - 1], ops[n - 1], outcomes[n - 1], between[n - 1], points[n]);
      if Builds(ops[n - 1], outcomes[n - 1]) {
        assert StandsTo(ops, outcomes, n - 1, n);
      } else {
        var m := n - 1;
        RecordStands(ops, outcomes, between, points, m);
        if i: nat :| StandsTo(ops, outcomes, i, m) {
          assert StandsTo(ops, outcomes, i, n);
        }
      }
    }
  }

  /**
   Over every run that starts without a record, told by operations and outcomes alone: there is a record exactly
   when some apply succeeded and no later operation tore its topology down, and it is that apply's topology.
   */
  lemma RecordIsLastStanding(ops: seq<Operation>, outcomes: seq<Outcome>, between: seq<State>, points: seq<Point>)
    requires Ran(ops, outcomes, between, points) && points[0].record.None?
    ensures points[|ops|].record.Some? <==> exists i: nat :: Stands(ops, outcomes, i)
    ensures forall i: nat :: Stands(ops, outcomes, i) ==> RecordOf(points[|ops|].record, ops[i])
  {
    forall i: nat | Stands(ops, outcomes, i)
      ensures RecordOf(points[|ops|].record, ops[i])
    {
      StandingStays(ops, outcomes, between, points, i, |ops|);
    }
    if points[|ops|].record.Some? {
      RecordStands(ops, outcomes, between, points, |ops|);
      var i: nat :| StandsTo(ops, outcomes, i, |ops|);
      assert Stands(ops, outcomes, i);
    }
  }

  // ----- a teardown that can never succeed -----

  /** A topology is on record, and a namespace that its teardown asks about is gone. */
  ghost predicate Stuck(p: Point) {
    p.record.Some? && !Open(p.host, p.record.value.topology)
  }

  predicate Fails(op: Operation, o: Outcome) {
    o.DestroyFailed? || (o.ConfigError? && op.ApplyFile? && (op.document.Loaded? ==> !Acceptable(op.document.topology)))
  }

  lemma {:induction false} StuckStays(ops: seq<Operation>, outcomes: seq<Outcome>, between: seq<State>,
                                      points: seq<Point>, n: nat)
    requires Ran(ops, outcomes, between, points) && n <= |ops| && Stuck(points[0])
    ensures Stuck(points[n]) && points[n].record == points[0].record
  {
    if n > 0 {
      StuckStays(ops, outcomes, between, points, n - 1);
      StuckStep(points[n - 1], ops[n - 1], outcomes[n - 1], between[n - 1], points[n]);
    }
  }

  /**
   From a stuck point no operation ever clears the record: every destroy and every accepted apply ends in
   DestroyFailed, in every run.
   */
  lemma StuckForever(ops: seq<Operation>, outcomes: seq<Outcome>, between: seq<State>, points: seq<Point>)
    requires Ran(ops, outcomes, between, points) && Stuck(points[0])
    ensures points[|ops|].record == points[0].record
    ensures forall i :: 0 <= i < |ops| ==> Fails(ops[i], outcomes[i])
  {
    StuckStays(ops, outcomes, between, points, |ops|);
    forall i | 0 <= i < |ops|
      ensures Fails(ops[i], outcomes[i])
    {
      StuckStays(ops, outcomes, between, points, i);
      StuckStep(points[i], ops[i], outcomes[i], between[i], points[i + 1]);
    }
  }

  lemma StuckStep(p: Point, op: Operation, o: Outcome, between: State, p': Point)
    requires OperationStep(p, op, o, between, p') && Stuck(p)
    ensures Stuck(p') && p'.record == p.record && Fails(op, o)
  {
  }

  const EMPTY := State({}, map[], map[], None)

  /** Namespace "h" cannot be deleted. */
  const H_STAYS: string -> Fate := n => if n == "h" then Breaks else Works

  predicate IsBridgeName(name: string) {
    name == INGRESS_BRIDGE || name == EGRESS_BRIDGE
  }

  lemma SmallIsBuildable(t: Topology, a: Ref, b: Ref, p: DpdkPort, q: DpdkPort)
    requires Ends(t.links) == {a, b} && t.ports == [p, q]
    requires !IsBridgeName(a.iface) && !IsBridgeName(b.iface) && !IsBridgeName(p.name) && !IsBridgeName(q.name)
    ensures Buildable(t)
  {
    assert PortRefs(t.ports) == {Ref(p.ns, p.name), Ref(q.ns, q.name)} by {
      assert p in t.ports && q in t.ports;
    }
  }

  lemma CrossedIsBuildable()
    ensures Buildable(CROSSED)
  {
    CrossedLinkOk();
    NoBridgeName("e", 'e');
    NoBridgeName("veth-in-k", 'v');
    NoBridgeName("veth-out-k", 'v');
    NoBridgeName("dtap1", 'd');
    SmallIsBuildable(CROSSED, Ref("g", "e"), Ref("h", "veth-in-k"), DpdkPort("veth-out-k", "h", Ingress),
                     DpdkPort("dtap1", "h", Egress));
  }

  lemma NoBridgeName(name: string, first: char)
    requires name != [] && name[0] == first != 'b'
    ensures !IsBridgeName(name)
  {
    assert INGRESS_BRIDGE[0] == 'b' && EGRESS_BRIDGE[0] == 'b';
  }

  lemma CrossedReady()
    ensures ReadyTo(EMPTY, Loaded(CROSSED)) && Buildable(CROSSED) && Wf(EMPTY)
  {
    CrossedIsAccepted();
    CrossedIsBuildable();
  }

  /** The crossed topology, applied on an empty and calm host that cannot delete "h". */
  method ApplyCrossed(path: string) returns (m: Manager)
    ensures fresh(m) && fresh(m.host) && m.Valid() && m.host.calm && m.host.deletes == H_STAYS
    ensures m.current.Some? && m.current.value.topology == CROSSED && "h" in m.host.k.namespaces
  {
    CrossedReady();
    var host := new Host(EMPTY, true, H_STAYS);
    m := new Manager(host);
    var o;
    ghost var between, broken;
    o, between, broken := m.Apply(path, Loaded(CROSSED));
    ApplyBuildsEverything(EMPTY, None, path, CROSSED, between, m.host.k, m.current);
    CrossedNamespaces();
  }

  lemma StopsAtH(host: Host, present: set<string>)
    requires host.calm && host.deletes == H_STAYS && "h" in present
    ensures StopsAt(host, CROSSED.namespaces, 0, present)
  {
    var names := CROSSED.namespaces;
    assert names == ["h", "g"] && "g"[0] != "h"[0];
  }

  lemma WithoutGIsNotOpen(k: State)
    requires GoneBehind(k, CROSSED.namespaces, 0)
    ensures !Open(k, CROSSED)
  {
    CrossedEnds();
    assert CROSSED.namespaces[1] == "g" && SplitRef(CROSSED.links[0].a).ns == "g";
  }

  /**
   A run that gets stuck: on an empty host an accepted topology is applied, and a destroy deletes namespace "g",
   in which its link begins, and then fails on "h".
   */
  method GetStuck(path: string) returns (m: Manager)
    ensures fresh(m) && fresh(m.host) && m.Valid() && Stuck(Point(m.host.k, m.current))
  {
    m := ApplyCrossed(path);
    StopsAtH(m.host, m.host.k.namespaces);
    var o := m.Destroy();
    WithoutGIsNotOpen(m.host.k);
  }
}
