/**
 The check-then-act commands of ctrld/pktlab_ctrld/util/netns.py and the datapath callbacks, each free to fail
 with a typed error and then without an effect on namespaces, interfaces or routes.
 */
module Netns {
  import opened JsonGrammar
  import opened TopologyConfig
  import opened Kernel

  /** How a call ends; `typed` tells a project error from any other exception. */
  datatype Result = Done | Raised(typed: bool)

  const FAILED := Raised(true)

  /** The datapath process runs in `ns`, with some of the TAP interfaces it was asked for. */
  ghost predicate Launched(k: State, l: State, ns: string, names: set<string>) {
    && ns in k.namespaces && l.namespaces == k.namespaces && l.routes == k.routes && l.datapath == Some(ns)
    && (forall r :: r in k.ifaces ==> r in l.ifaces && l.ifaces[r] == k.ifaces[r])
    && (forall r :: r in l.ifaces && r !in k.ifaces ==> r.ns == ns && r.iface in names && l.ifaces[r].kind.Tap?)
  }

  lemma LaunchedWithin(k: State, l: State, ns: string, names: set<string>, d: set<string>)
    requires Wf(k) && Launched(k, l, ns, names) && ns in d
    ensures Within(k, l, d)
  {
  }

  /** Whether a command works, fails, or does either from time to time. */
  datatype Fate = Works | Varies | Breaks

  /**
   On a `calm` host no command fails without a reason in its state, except for the deletion of a namespace, for
   which `deletes` says what becomes of it.
   */
  class Host {
    const calm: bool
    const deletes: string -> Fate
    var k: State

    constructor (k0: State, calm: bool, deletes: string -> Fate)
      ensures k == k0 && this.calm == calm && this.deletes == deletes
    {
      k, this.calm, this.deletes := k0, calm, deletes;
    }

    /** The deletion of a namespace fails as its fate says. */
    method DeletionFails(n: string) returns (fails: bool)
      ensures deletes(n).Works? ==> !fails
      ensures deletes(n).Breaks? ==> fails
    {
      match deletes(n)
      case Works => fails := false;
      case Breaks => fails := true;
      case Varies => fails := *;
    }

    /** Any command may fail, unless the host is calm. */
    method CommandFails() returns (fails: bool)
      ensures calm ==> !fails
    {
      if calm {
        return false;
      }
      fails := *;
    }

    method NamespaceExists(n: string) returns (r: Result, present: bool)
      ensures r.Done? ==> present == (n in k.namespaces)
      ensures r.Raised? ==> r.typed
      ensures calm ==> r.Done?
    {
      var fails := CommandFails();
      return if fails then FAILED else Done, n in k.namespaces;
    }

    method EnsureNamespace(n: string) returns (r: Result)
      modifies this
      ensures r.Done? ==> k == AddNamespace(old(k), n)
      ensures r.Raised? ==> r.typed && k == old(k)
      ensures calm ==> r.Done?
    {
      var found;
      r, found := NamespaceExists(n);
      if r.Raised? {
        return;
      }
      if found {
        assert k.namespaces + {n} == k.namespaces;
        return;
      }
      var fails := CommandFails();
      if fails {
        return FAILED;
      }
      k := AddNamespace(k, n);
    }

    method DeleteNamespace(n: string) returns (r: Result)
      modifies this
      ensures r.Done? ==> k == if n in old(k).namespaces then DelNamespace(old(k), n) else old(k)
      ensures r.Raised? ==> r.typed && k == old(k)
      ensures calm && deletes(n).Works? ==> r.Done?
      ensures deletes(n).Breaks? && n in old(k).namespaces ==> r.Raised?
    {
      var found;
      r, found := NamespaceExists(n);
      if r.Raised? || !found {
        return;
      }
      var fails := DeletionFails(n);
      if fails {
        return FAILED;
      }
      k := DelNamespace(k, n);
    }

    /** Asking about an interface of a missing namespace is an error, not a no. */
    method LinkExists(i: Ref) returns (r: Result, present: bool)
      ensures r.Done? ==> i.ns in k.namespaces && present == (i in k.ifaces)
      ensures r.Raised? ==> r.typed
      ensures calm && i.ns in k.namespaces ==> r.Done?
    {
      var fails := CommandFails();
      return if fails || i.ns !in k.namespaces then FAILED else Done, i in k.ifaces;
    }

    method EnsureVethPair(a: Ref, b: Ref) returns (r: Result)
      modifies this
      ensures r.Done? ==>
                if a in old(k).ifaces && b in old(k).ifaces then k == old(k)
                else
                  && a != b && a !in old(k).ifaces && b !in old(k).ifaces
                  && a.ns in k.namespaces && b.ns in k.namespaces && k == AddVeth(old(k), a, b)
      ensures r.Raised? ==> r.typed && k == old(k)
      ensures calm && a.ns in old(k).namespaces && b.ns in old(k).namespaces && a != b
              && a !in old(k).ifaces && b !in old(k).ifaces ==>
                r.Done?
    {
      var found;
      r, found := LinkExists(a);
      if r.Raised? {
        return;
      }
      if found {
        r, found := LinkExists(b);
        if r.Raised? || found {
          return;
        }
      }
      var fails := CommandFails();
      if fails || a == b || a in k.ifaces || b in k.ifaces || b.ns !in k.namespaces {
        return FAILED;
      }
      k := AddVeth(k, a, b);
    }

    method DeleteLink(i: Ref) returns (r: Result)
      modifies this
      ensures r.Done? ==> k == if i in old(k).ifaces then DelIface(old(k), i) else old(k)
      ensures r.Raised? ==> r.typed && k == old(k)
      ensures r.Done? ==> i.ns in old(k).namespaces
      ensures calm && i.ns in old(k).namespaces ==> r.Done?
    {
      var found;
      r, found := LinkExists(i);
      if r.Raised? || !found {
        return;
      }
      var fails := CommandFails();
      if fails {
        return FAILED;
      }
      k := DelIface(k, i);
    }

    method EnsureBridge(i: Ref) returns (r: Result)
      modifies this
      ensures r.Done? ==> i.ns in k.namespaces && k == if i in old(k).ifaces then old(k) else AddBridge(old(k), i)
      ensures r.Raised? ==> r.typed && k == old(k)
      ensures calm && i.ns in old(k).namespaces ==> r.Done?
    {
      var found;
      r, found := LinkExists(i);
      if r.Raised? || found {
        return;
      }
      var fails := CommandFails();
      if fails {
        return FAILED;
      }
      k := AddBridge(k, i);
    }

    method ReplaceAddress(i: Ref, c: Cidr) returns (r: Result)
      modifies this
      ensures r.Done? ==> i in old(k).ifaces && k == AddAddress(old(k), i, c)
      ensures r.Raised? ==> r.typed && k == old(k)
      ensures calm && i in old(k).ifaces ==> r.Done?
    {
      var fails := CommandFails();
      if fails || i !in k.ifaces {
        return FAILED;
      }
      k := AddAddress(k, i, c);
      return Done;
    }

    method ReplaceRoute(d: Dst, via: nat) returns (r: Result)
      modifies this
      ensures r.Done? ==> d.ns in k.namespaces && k == SetRoute(old(k), d, via)
      ensures r.Raised? ==> r.typed && k == old(k)
      ensures calm && d.ns in old(k).namespaces ==> r.Done?
    {
      var fails := CommandFails();
      if fails || d.ns !in k.namespaces {
        return FAILED;
      }
      k := SetRoute(k, d, via);
      return Done;
    }

    /** Only an interface that is not itself a bridge can join, and only a bridge. */
    method AttachToBridge(i: Ref, bridge: string) returns (r: Result)
      modifies this
      ensures r.Done? ==>
                && i in old(k).ifaces && !old(k).ifaces[i].kind.Bridge?
                && Ref(i.ns, bridge) in old(k).ifaces && old(k).ifaces[Ref(i.ns, bridge)].kind.Bridge?
                && k == SetMaster(old(k), i, bridge)
      ensures r.Raised? ==> r.typed && k == old(k)
      ensures calm && i in old(k).ifaces && !old(k).ifaces[i].kind.Bridge? && Ref(i.ns, bridge) in old(k).ifaces
              && old(k).ifaces[Ref(i.ns, bridge)].kind.Bridge? ==>
                r.Done?
    {
      var fails := CommandFails();
      var b := Ref(i.ns, bridge);
      if fails || i !in k.ifaces || k.ifaces[i].kind.Bridge? || b !in k.ifaces || !k.ifaces[b].kind.Bridge? {
        return FAILED;
      }
      k := SetMaster(k, i, bridge);
      return Done;
    }

    method SetLinkUp(i: Ref) returns (r: Result)
      modifies this
      ensures r.Done? ==> i in old(k).ifaces && k == SetUp(old(k), i)
      ensures r.Raised? ==> r.typed && k == old(k)
      ensures calm && i in old(k).ifaces ==> r.Done?
    {
      var fails := CommandFails();
      if fails || i !in k.ifaces {
        return FAILED;
      }
      k := SetUp(k, i);
      return Done;
    }

    /** A TAP interface appears, unless its name is taken or the process is too slow. */
    method TapAppears(i: Ref)
      modifies this
      ensures k == old(k) || (i !in old(k).ifaces && k == AddTap(old(k), i))
      ensures calm ==> i in k.ifaces
    {
      var late := CommandFails();
      if !late && i !in k.ifaces {
        k := AddTap(k, i);
      }
    }

    /** Stops a datapath that still runs, then launches one; a failure may leave it running or not. */
    method StartDatapath(ns: string, ingress: string, egress: string) returns (r: Result)
      modifies this
      ensures r.Done? ==> Launched(StopDatapath(old(k)), k, ns, {ingress, egress})
      ensures k == old(k) || k == StopDatapath(old(k)) || Launched(StopDatapath(old(k)), k, ns, {ingress, egress})
      ensures calm && ns in old(k).namespaces ==> r.Done? && Ref(ns, ingress) in k.ifaces && Ref(ns, egress) in k.ifaces
    {
      r := StopRunning();
      if r.Raised? {
        return;
      }
      var fails := CommandFails();
      var typed := CommandFails();
      if fails || ns !in k.namespaces {
        return Raised(typed);
      }
      k := k.(datapath := Some(ns));
      TapAppears(Ref(ns, ingress));
      TapAppears(Ref(ns, egress));
      var late := CommandFails();
      return if late then Raised(typed) else Done;
    }

    /** A stop that fails may or may not have ended the process. */
    method StopRunning() returns (r: Result)
      modifies this
      ensures r.Done? ==> k == StopDatapath(old(k))
      ensures r.Raised? ==> r.typed && (k == old(k) || k == StopDatapath(old(k)))
      ensures calm ==> r.Done?
    {
      var fails := CommandFails();
      var ended := CommandFails();
      if fails && !ended {
        return FAILED;
      }
      k := StopDatapath(k);
      return if fails then FAILED else Done;
    }
  }
}
