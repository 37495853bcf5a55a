/**
 * Host-table construction of the connect command: resolving each Service of a
 * namespace to an address, and expanding the result into the three host-name
 * forms that are dumped into the local resolver override.
 */
module ConnectHosts {
  import opened Wrappers
  import opened Strings
  import opened Kube

  /** A Service without a cluster address: `spec.clusterIP` empty or the sentinel `None`. */
  predicate IsHeadless(clusterIp: string) {
    clusterIp == "" || clusterIp == "None"
  }

  /** Pod `i` is the first of `pods` whose address is already assigned. */
  predicate FirstWithIp(pods: seq<Pod>, i: int) {
    0 <= i < |pods| && pods[i].podIp != "" && forall j :: 0 <= j < i ==> pods[j].podIp == ""
  }

  /** The index of the first pod that has an address, if any has one. */
  function FirstPodWithIp(pods: seq<Pod>): (r: Option<nat>)
    ensures r.Some? ==> FirstWithIp(pods, r.value)
    ensures r.None? ==> forall j :: 0 <= j < |pods| ==> pods[j].podIp == ""
    decreases |pods|
  {
    if |pods| == 0 then None
    else if pods[0].podIp != "" then Some(0)
    else
      match FirstPodWithIp(pods[1..])
      case None => None
      case Some(i) => Some(i + 1)
  }

  /**
   * What one Service contributes to the scan: nothing, or an address together
   * with the name of the pod it was taken from when the Service is headless.
   */
  datatype Resolution = Skipped | Resolved(ip: string, headlessPod: Option<string>)

  /**
   * The body of the Service loop of `getServiceHosts`. The pod query is issued
   * for headless Services only; its failure or an empty answer skips the
   * Service. Otherwise the pod scan leaves the last address it looked at, which
   * is the empty one when no pod has an address yet.
   */
  function ResolveService(svc: Service, namespace: string, cluster: Cluster): (r: Resolution)
    ensures !IsHeadless(svc.clusterIp) ==> r == Resolved(svc.clusterIp, None)
    ensures IsHeadless(svc.clusterIp) ==>
      var pods := cluster.podsByLabel(svc.selector, namespace);
      && (r.Skipped? <==> pods.Failure? || |pods.value| == 0)
      && (r.Resolved? ==> (r.headlessPod.None? <==> r.ip == ""))
      && (r.Resolved? && r.headlessPod.None? ==> forall j :: 0 <= j < |pods.value| ==> pods.value[j].podIp == "")
      && (r.Resolved? && r.headlessPod.Some? ==>
            exists i :: FirstWithIp(pods.value, i) && pods.value[i].name == r.headlessPod.value && pods.value[i].podIp == r.ip)
  {
    if !IsHeadless(svc.clusterIp) then Resolved(svc.clusterIp, None)
    else
      match cluster.podsByLabel(svc.selector, namespace)
      case Failure(_) => Skipped
      case Success(pods) =>
        if |pods| == 0 then Skipped
        else
          match FirstPodWithIp(pods)
          case Some(i) => Resolved(pods[i].podIp, Some(pods[i].name))
          case None => Resolved(pods[|pods| - 1].podIp, None)
  }

  /** The two results of `getServiceHosts`: Service name to address, and the headless-backing pods. */
  datatype ServiceHosts = ServiceHosts(hosts: map<DnsLabel, string>, headlessPods: seq<string>)

  /** The pod a resolution records, as a list of zero or one names. */
  function RecordedPods(r: Resolution): seq<string> {
    if r.Resolved? && r.headlessPod.Some? then [r.headlessPod.value] else []
  }

  /** The Service loop of `getServiceHosts` over `services`, in order; a later Service of the same name overwrites. */
  function HostsOf(services: seq<Service>, namespace: string, cluster: Cluster): (r: ServiceHosts)
    ensures |r.headlessPods| <= |services|
    decreases |services|
  {
    if |services| == 0 then ServiceHosts(map[], [])
    else
      var prev := HostsOf(services[..|services| - 1], namespace, cluster);
      var svc := services[|services| - 1];
      var r := ResolveService(svc, namespace, cluster);
      if r.Skipped? then prev
      else ServiceHosts(prev.hosts[svc.name := r.ip], prev.headlessPods + RecordedPods(r))
  }

  /** `getServiceHosts(namespace)`: a failed Service listing yields an empty table and no pods. */
  function ServiceHostsIn(cluster: Cluster, namespace: string): (r: ServiceHosts)
    ensures cluster.listServices(namespace).Failure? ==> r.hosts == map[] && r.headlessPods == []
    ensures cluster.listServices(namespace).Success? ==>
      var services := cluster.listServices(namespace).value;
      |r.headlessPods| <= |services|
  {
    match cluster.listServices(namespace)
    case Failure(_) => ServiceHosts(map[], [])
    case Success(services) => HostsOf(services, namespace, cluster)
  }

  /** The Service-name table `getServiceHosts` finds in `namespace`. */
  function Found(cluster: Cluster, namespace: string): map<DnsLabel, string> {
    ServiceHostsIn(cluster, namespace).hosts
  }

  /** A Service name is in the table exactly when some Service of that name resolved. */
  lemma {:induction false} HostsOfKeys(services: seq<Service>, namespace: string, cluster: Cluster)
    ensures forall name: DnsLabel :: name in HostsOf(services, namespace, cluster).hosts <==>
      exists i :: 0 <= i < |services| && services[i].name == name && ResolveService(services[i], namespace, cluster).Resolved?
    decreases |services|
  {
    if |services| > 0 {
      var pre := services[..|services| - 1];
      HostsOfKeys(pre, namespace, cluster);
      assert forall i :: 0 <= i < |pre| ==> pre[i] == services[i];
    }
  }

  /** The address recorded for a name is that of the last Service of the name that resolved. */
  lemma {:induction false} HostsOfLastWins(services: seq<Service>, namespace: string, cluster: Cluster, i: int)
    requires 0 <= i < |services| && ResolveService(services[i], namespace, cluster).Resolved?
    requires forall j :: i < j < |services| && services[j].name == services[i].name ==>
      ResolveService(services[j], namespace, cluster).Skipped?
    ensures services[i].name in HostsOf(services, namespace, cluster).hosts
    ensures HostsOf(services, namespace, cluster).hosts[services[i].name] == ResolveService(services[i], namespace, cluster).ip
    decreases |services|
  {
    var pre := services[..|services| - 1];
    if i < |services| - 1 {
      assert pre[i] == services[i];
      HostsOfLastWins(pre, namespace, cluster, i);
    }
  }

  /** The concatenation of `f` over `xs`, in order. */
  function Collect<T>(xs: seq<T>, f: T -> seq<string>): seq<string>
    decreases |xs|
  {
    if |xs| == 0 then [] else Collect(xs[..|xs| - 1], f) + f(xs[|xs| - 1])
  }

  /** A string is collected exactly when `f` yields it for some element; with at most one per element, no more strings than elements. */
  lemma {:induction false} CollectMembers<T>(xs: seq<T>, f: T -> seq<string>)
    ensures forall p :: p in Collect(xs, f) <==> exists i :: 0 <= i < |xs| && p in f(xs[i])
    ensures (forall i :: 0 <= i < |xs| ==> |f(xs[i])| <= 1) ==> |Collect(xs, f)| <= |xs|
    decreases |xs|
  {
    if |xs| > 0 {
      var pre := xs[..|xs| - 1];
      CollectMembers(pre, f);
      assert forall i :: 0 <= i < |pre| ==> pre[i] == xs[i];
    }
  }

  /** The pods one Service records, as a function of the Service. */
  function PodRecorder(namespace: string, cluster: Cluster): Service -> seq<string> {
    svc => RecordedPods(ResolveService(svc, namespace, cluster))
  }

  /** The headless list of the Service loop is the concatenation of what each Service records. */
  lemma {:induction false} HostsOfCollects(services: seq<Service>, namespace: string, cluster: Cluster)
    ensures HostsOf(services, namespace, cluster).headlessPods == Collect(services, PodRecorder(namespace, cluster))
    decreases |services|
  {
    if |services| > 0 {
      var pre := services[..|services| - 1];
      HostsOfCollects(pre, namespace, cluster);
      var prev := HostsOf(pre, namespace, cluster).headlessPods;
      assert prev + [] == prev;
    }
  }

  /**
   * The headless list names exactly the pods that resolved headless Services,
   * one per such Service at most.
   */
  lemma {:induction false} HostsOfHeadlessPods(services: seq<Service>, namespace: string, cluster: Cluster)
    ensures forall p :: p in HostsOf(services, namespace, cluster).headlessPods <==>
      exists i :: 0 <= i < |services| && p in RecordedPods(ResolveService(services[i], namespace, cluster))
    ensures |HostsOf(services, namespace, cluster).headlessPods| <= |services|
  {
    var f := PodRecorder(namespace, cluster);
    HostsOfCollects(services, namespace, cluster);
    CollectMembers(services, f);
    assert forall i :: 0 <= i < |services| ==> f(services[i]) == RecordedPods(ResolveService(services[i], namespace, cluster));
  }

  /**
   * The pod loop of `getServiceHosts`: the address of the first pod that has
   * one, with that pod's name recorded; when none has one, the last pod's
   * (empty) address and nothing recorded.
   */
  method ScanPods(pods: seq<Pod>) returns (ip: string, recorded: seq<string>)
    requires |pods| > 0
    ensures FirstPodWithIp(pods).Some? ==>
      var i := FirstPodWithIp(pods).value;
      ip == pods[i].podIp && recorded == [pods[i].name]
    ensures FirstPodWithIp(pods).None? ==> ip == pods[|pods| - 1].podIp && recorded == []
  {
    ip := "";
    recorded := [];
    var j := 0;
    while j < |pods|
      invariant 0 <= j <= |pods|
      invariant forall k :: 0 <= k < j ==> pods[k].podIp == ""
      invariant j > 0 ==> ip == pods[j - 1].podIp
      invariant recorded == []
    {
      ip := pods[j].podIp;
      if ip != "" {
        recorded := [pods[j].name];
        assert FirstWithIp(pods, j);
        assert FirstWithIp(pods, FirstPodWithIp(pods).value);
        return;
      }
      j := j + 1;
    }
  }

  /**
   * `getServiceHosts` as the Go loops run it: over the listed Services, and for
   * a headless one over its pods, stopping at the first pod with an address.
   */
  method GetServiceHosts(cluster: Cluster, namespace: string) returns (hosts: map<DnsLabel, string>, podNames: seq<string>)
    ensures ServiceHosts(hosts, podNames) == ServiceHostsIn(cluster, namespace)
  {
    hosts := map[];
    podNames := [];
    var listed := cluster.listServices(namespace);
    if listed.Failure? {
      return;
    }
    var services := listed.value;
    var i := 0;
    while i < |services|
      invariant 0 <= i <= |services|
      invariant ServiceHosts(hosts, podNames) == HostsOf(services[..i], namespace, cluster)
    {
      assert services[..i + 1][..i] == services[..i];
      var service := services[i];
      var ip := service.clusterIp;
      if IsHeadless(ip) {
        var found := cluster.podsByLabel(service.selector, namespace);
        if found.Failure? || |found.value| == 0 {
          i := i + 1;
          continue;
        }
        var recorded;
        ip, recorded := ScanPods(found.value);
        podNames := podNames + recorded;
      }
      hosts := hosts[service.name := ip];
      i := i + 1;
    }
    assert services[..i] == services;
  }

  /** The namespace-qualified host name `svc.ns`. */
  function QualifiedKey(svc: string, namespace: string): string {
    svc + "." + namespace
  }

  /** The part after the Service name in a fully-qualified host name: `ns.svc.<cluster domain>`. */
  function ClusterSuffix(namespace: string, clusterDomain: string): string {
    namespace + ".svc." + clusterDomain
  }

  /** The fully-qualified host name `svc.ns.svc.<cluster domain>`. */
  function FullKey(svc: string, namespace: string, clusterDomain: string): string {
    QualifiedKey(svc, ClusterSuffix(namespace, clusterDomain))
  }

  /** Splitting at the first dot: a dot-free left part is determined by the string. */
  lemma DotJoinInjective(a: string, b: string, a': string, b': string)
    requires '.' !in a && '.' !in a'
    requires a + "." + b == a' + "." + b'
    ensures a == a' && b == b'
  {
    var s := a + "." + b;
    IndexOfAfterPrefix(a, '.', b);
    IndexOfAfterPrefix(a', '.', b');
    assert a == s[..|a|];
    assert b == s[|a| + 1..];
  }

  /** Qualified and fully-qualified names contain a dot, so they never equal a bare Service name. */
  lemma KeysHaveDots(svc: string, namespace: string, clusterDomain: string)
    ensures QualifiedKey(svc, namespace)[|svc|] == '.'
    ensures '.' in QualifiedKey(svc, namespace)
    ensures '.' in FullKey(svc, namespace, clusterDomain)
    ensures '.' in ClusterSuffix(namespace, clusterDomain)
    ensures |namespace| < |ClusterSuffix(namespace, clusterDomain)|
  {
  }

  /** Equal strings with a common tail have equal heads. */
  lemma SuffixCancel(a: string, b: string, t: string)
    requires a + t == b + t
    ensures a == b
  {
    assert a == (a + t)[..|a|];
    assert b == (b + t)[..|b|];
  }

  /** `k` is one of the names dumped for Service `svc` of `namespace`. */
  predicate EntryKey(k: string, svc: DnsLabel, namespace: string, current: string, clusterDomain: string) {
    || k == QualifiedKey(svc, namespace)
    || k == FullKey(svc, namespace, clusterDomain)
    || (namespace == current && k == svc)
  }

  /** Within one namespace, a dumped name belongs to one Service only: the three kinds never collide. */
  lemma EntryKeyUnique(k: string, s1: DnsLabel, s2: DnsLabel, namespace: string, current: string, clusterDomain: string)
    requires EntryKey(k, s1, namespace, current, clusterDomain)
    requires EntryKey(k, s2, namespace, current, clusterDomain)
    ensures s1 == s2
  {
    var ext := ClusterSuffix(namespace, clusterDomain);
    KeysHaveDots(s1, namespace, clusterDomain);
    KeysHaveDots(s2, namespace, clusterDomain);
    if k == QualifiedKey(s1, namespace) {
      if k == QualifiedKey(s2, namespace) {
        DotJoinInjective(s1, namespace, s2, namespace);
      } else if k == FullKey(s2, namespace, clusterDomain) {
        DotJoinInjective(s1, namespace, s2, ext);
      }
    } else if k == FullKey(s1, namespace, clusterDomain) {
      if k == QualifiedKey(s2, namespace) {
        DotJoinInjective(s1, ext, s2, namespace);
      } else if k == FullKey(s2, namespace, clusterDomain) {
        DotJoinInjective(s1, ext, s2, ext);
      }
    }
  }

  /**
   * Two Services of distinct namespaces never share a dumped name, as long as
   * neither namespace name has a dot (Kubernetes namespace names never do).
   */
  lemma NotSameEntry(k: string, svc: DnsLabel, ns: string, s: DnsLabel, other: string, current: string, clusterDomain: string)
    requires '.' !in ns && '.' !in other && ns != other
    requires EntryKey(k, svc, ns, current, clusterDomain)
    ensures !EntryKey(k, s, other, current, clusterDomain)
  {
    var extNs := ClusterSuffix(ns, clusterDomain);
    var extOther := ClusterSuffix(other, clusterDomain);
    KeysHaveDots(svc, ns, clusterDomain);
    KeysHaveDots(s, other, clusterDomain);
    if k == QualifiedKey(s, other) {
      if k == QualifiedKey(svc, ns) {
        DotJoinInjective(svc, ns, s, other);
      } else if k == FullKey(svc, ns, clusterDomain) {
        DotJoinInjective(svc, extNs, s, other);
      }
    } else if k == FullKey(s, other, clusterDomain) {
      if k == QualifiedKey(svc, ns) {
        DotJoinInjective(svc, ns, s, extOther);
      } else if k == FullKey(svc, ns, clusterDomain) {
        DotJoinInjective(svc, extNs, s, extOther);
        assert extNs == ns + (".svc." + clusterDomain);
        assert extOther == other + (".svc." + clusterDomain);
        SuffixCancel(ns, other, ".svc." + clusterDomain);
      }
    }
  }

  /**
   * The entries one namespace adds to the dump, writing the Services of
   * `found` in the order `names` visits them: `svc` (current namespace only),
   * then `svc.ns`, then `svc.ns.svc.<domain>`. Go ranges over the Service table
   * in an unspecified order; `NamespaceEntriesAt` shows that the result depends
   * only on the names visited, not on their order.
   */
  function NamespaceEntries(namespace: string, current: string, clusterDomain: string,
                            found: map<DnsLabel, string>, names: seq<DnsLabel>): (r: map<string, string>)
    requires forall i :: 0 <= i < |names| ==> names[i] in found
    ensures forall k :: k in r ==> r[k] in found.Values
    decreases |names|
  {
    if |names| == 0 then map[]
    else
      var prev := NamespaceEntries(namespace, current, clusterDomain, found, names[..|names| - 1]);
      var svc := names[|names| - 1];
      var ip := found[svc];
      var withBare := if namespace == current then prev[svc := ip] else prev;
      withBare[QualifiedKey(svc, namespace) := ip][FullKey(svc, namespace, clusterDomain) := ip]
  }

  /**
   * A name is in the entries exactly when it is an entry name of a visited
   * Service, and it then carries that Service's address.
   */
  lemma {:induction false} NamespaceEntriesAt(namespace: string, current: string, clusterDomain: string,
                                              found: map<DnsLabel, string>, names: seq<DnsLabel>, k: string)
    requires forall i :: 0 <= i < |names| ==> names[i] in found
    ensures k in NamespaceEntries(namespace, current, clusterDomain, found, names) <==>
      exists i :: 0 <= i < |names| && EntryKey(k, names[i], namespace, current, clusterDomain)
    ensures forall i :: 0 <= i < |names| && EntryKey(k, names[i], namespace, current, clusterDomain) ==>
      NamespaceEntries(namespace, current, clusterDomain, found, names)[k] == found[names[i]]
    decreases |names|
  {
    if |names| > 0 {
      var pre := names[..|names| - 1];
      var svc := names[|names| - 1];
      NamespaceEntriesAt(namespace, current, clusterDomain, found, pre, k);
      assert forall i :: 0 <= i < |pre| ==> pre[i] == names[i];
      forall i | 0 <= i < |names| && EntryKey(k, names[i], namespace, current, clusterDomain)
        ensures NamespaceEntries(namespace, current, clusterDomain, found, names)[k] == found[names[i]]
      {
        if EntryKey(k, svc, namespace, current, clusterDomain) {
          EntryKeyUnique(k, names[i], svc, namespace, current, clusterDomain);
        }
      }
    }
  }

  /** The names of the Services that resolved, in listing order. */
  function ResolvedNames(services: seq<Service>, namespace: string, cluster: Cluster): (r: seq<DnsLabel>)
    ensures forall name: DnsLabel :: name in r <==>
      exists i :: 0 <= i < |services| && services[i].name == name && ResolveService(services[i], namespace, cluster).Resolved?
    decreases |services|
  {
    if |services| == 0 then []
    else
      var pre := services[..|services| - 1];
      var svc := services[|services| - 1];
      assert forall i :: 0 <= i < |pre| ==> pre[i] == services[i];
      ResolvedNames(pre, namespace, cluster)
        + (if ResolveService(svc, namespace, cluster).Resolved? then [svc.name] else [])
  }

  /** What `dumpToHost` writes for one namespace: the entries of every Service `getServiceHosts` finds there. */
  function NamespaceHosts(cluster: Cluster, namespace: string, current: string, clusterDomain: string): (r: map<string, string>)
    ensures cluster.listServices(namespace).Failure? ==> r == map[]
    ensures forall k :: k in r ==> r[k] in Found(cluster, namespace).Values
  {
    match cluster.listServices(namespace)
    case Failure(_) => map[]
    case Success(services) =>
      var names := ResolvedNames(services, namespace, cluster);
      HostsOfKeys(services, namespace, cluster);
      assert forall i :: 0 <= i < |names| ==> names[i] in names;
      NamespaceEntries(namespace, current, clusterDomain, HostsOf(services, namespace, cluster).hosts, names)
  }

  /**
   * One namespace's part of the dump: a name is written exactly when it is an
   * entry name of a Service found there, and it carries that Service's address.
   */
  lemma NamespaceHostsAt(cluster: Cluster, namespace: string, current: string, clusterDomain: string, k: string)
    ensures k in NamespaceHosts(cluster, namespace, current, clusterDomain) <==>
      exists s: DnsLabel :: s in Found(cluster, namespace) && EntryKey(k, s, namespace, current, clusterDomain)
    ensures forall s: DnsLabel :: s in Found(cluster, namespace) && EntryKey(k, s, namespace, current, clusterDomain) ==>
      NamespaceHosts(cluster, namespace, current, clusterDomain)[k] == Found(cluster, namespace)[s]
  {
    match cluster.listServices(namespace)
    case Failure(_) =>
    case Success(services) =>
      var names := ResolvedNames(services, namespace, cluster);
      var found := HostsOf(services, namespace, cluster).hosts;
      HostsOfKeys(services, namespace, cluster);
      assert forall s: DnsLabel :: s in found <==> s in names;
      NamespaceEntriesAt(namespace, current, clusterDomain, found, names, k);
      if exists s: DnsLabel :: s in found && EntryKey(k, s, namespace, current, clusterDomain) {
        var s: DnsLabel :| s in found && EntryKey(k, s, namespace, current, clusterDomain);
        var i :| 0 <= i < |names| && names[i] == s;
        assert EntryKey(k, names[i], namespace, current, clusterDomain);
      }
      forall s: DnsLabel | s in found && EntryKey(k, s, namespace, current, clusterDomain)
        ensures NamespaceHosts(cluster, namespace, current, clusterDomain)[k] == found[s]
      {
        var i :| 0 <= i < |names| && names[i] == s;
      }
  }

  /** Two visiting orders of the same Services give the same entries. */
  lemma NamespaceEntriesOrderFree(namespace: string, current: string, clusterDomain: string,
                                  found: map<DnsLabel, string>, names1: seq<DnsLabel>, names2: seq<DnsLabel>)
    requires forall i :: 0 <= i < |names1| ==> names1[i] in found
    requires forall s :: s in names1 <==> s in names2
    ensures forall i :: 0 <= i < |names2| ==> names2[i] in found
    ensures NamespaceEntries(namespace, current, clusterDomain, found, names1)
         == NamespaceEntries(namespace, current, clusterDomain, found, names2)
  {
    assert forall i :: 0 <= i < |names2| ==> names2[i] in names1;
    var e1 := NamespaceEntries(namespace, current, clusterDomain, found, names1);
    var e2 := NamespaceEntries(namespace, current, clusterDomain, found, names2);
    forall k
      ensures k in e1 <==> k in e2
      ensures k in e1 ==> e1[k] == e2[k]
    {
      NamespaceEntriesAt(namespace, current, clusterDomain, found, names1, k);
      NamespaceEntriesAt(namespace, current, clusterDomain, found, names2, k);
      if k in e1 {
        var i :| 0 <= i < |names1| && EntryKey(k, names1[i], namespace, current, clusterDomain);
        assert names1[i] in names2;
        var j :| 0 <= j < |names2| && names2[j] == names1[i];
        assert EntryKey(k, names2[j], namespace, current, clusterDomain);
      }
      if k in e2 {
        var j :| 0 <= j < |names2| && EntryKey(k, names2[j], namespace, current, clusterDomain);
        assert names2[j] in names1;
        var i :| 0 <= i < |names1| && names1[i] == names2[j];
        assert EntryKey(k, names1[i], namespace, current, clusterDomain);
      }
    }
  }

  /**
   * The namespaces `dumpToHost` searches: the current one when no list is
   * given, otherwise exactly the comma-separated list, in order, without the
   * current namespace added.
   */
  function NamespacesToDump(current: string, targets: string): (r: seq<string>)
    ensures |r| >= 1
    ensures targets == "" ==> r == [current]
    ensures targets != "" ==> Join(r, ',') == targets && forall i :: 0 <= i < |r| ==> ',' !in r[i]
  {
    if targets == "" then [current] else Split(targets, ',')
  }

  /** The table `dumpToHost` builds over `namespaces`, in order; a later namespace overwrites. */
  function HostsTable(namespaces: seq<string>, current: string, clusterDomain: string, cluster: Cluster): (r: map<string, string>)
    ensures |namespaces| > 0 ==>
      var here := NamespaceHosts(cluster, namespaces[|namespaces| - 1], current, clusterDomain);
      forall k :: k in here ==> k in r && r[k] == here[k]
    decreases |namespaces|
  {
    if |namespaces| == 0 then map[]
    else
      HostsTable(namespaces[..|namespaces| - 1], current, clusterDomain, cluster)
        + NamespaceHosts(cluster, namespaces[|namespaces| - 1], current, clusterDomain)
  }

  /** Every address in the table is the address of a Service found in one of the searched namespaces. */
  lemma {:induction false} HostsTableAddresses(namespaces: seq<string>, current: string, clusterDomain: string, cluster: Cluster, k: string)
    requires k in HostsTable(namespaces, current, clusterDomain, cluster)
    ensures exists ns :: ns in namespaces && HostsTable(namespaces, current, clusterDomain, cluster)[k] in Found(cluster, ns).Values
    decreases |namespaces|
  {
    var pre := namespaces[..|namespaces| - 1];
    var last := namespaces[|namespaces| - 1];
    if k !in NamespaceHosts(cluster, last, current, clusterDomain) {
      HostsTableAddresses(pre, current, clusterDomain, cluster, k);
      var ns :| ns in pre && HostsTable(pre, current, clusterDomain, cluster)[k] in Found(cluster, ns).Values;
      assert ns in namespaces;
    }
  }

  /** `dumpToHost(current, targets, clusterDomain)`: the table handed to the resolver override. */
  function DumpToHost(current: string, targets: string, clusterDomain: string, cluster: Cluster): (r: map<string, string>)
    ensures targets == "" ==> r == NamespaceHosts(cluster, current, current, clusterDomain)
  {
    var namespaces := NamespacesToDump(current, targets);
    if targets == "" then
      var here := NamespaceHosts(cluster, current, current, clusterDomain);
      assert namespaces == [current] && namespaces[..0] == [];
      assert HostsTable(namespaces, current, clusterDomain, cluster) == HostsTable([], current, clusterDomain, cluster) + here;
      assert map[] + here == here;
      HostsTable(namespaces, current, clusterDomain, cluster)
    else
      HostsTable(namespaces, current, clusterDomain, cluster)
  }

  /**
   * A name is in the dump exactly when it is an entry name of some Service
   * found in some searched namespace.
   */
  lemma {:induction false} HostsTableKeys(namespaces: seq<string>, current: string, clusterDomain: string, cluster: Cluster, k: string)
    ensures k in HostsTable(namespaces, current, clusterDomain, cluster) <==>
      exists i, s: DnsLabel :: 0 <= i < |namespaces| && s in Found(cluster, namespaces[i])
        && EntryKey(k, s, namespaces[i], current, clusterDomain)
    decreases |namespaces|
  {
    if |namespaces| > 0 {
      var pre := namespaces[..|namespaces| - 1];
      var last := namespaces[|namespaces| - 1];
      HostsTableKeys(pre, current, clusterDomain, cluster, k);
      NamespaceHostsAt(cluster, last, current, clusterDomain, k);
      assert forall i :: 0 <= i < |pre| ==> pre[i] == namespaces[i];
      if k in NamespaceHosts(cluster, last, current, clusterDomain) {
        var s: DnsLabel :| s in Found(cluster, last) && EntryKey(k, s, last, current, clusterDomain);
        assert namespaces[|namespaces| - 1] == last;
      }
      if (exists i, s: DnsLabel :: 0 <= i < |namespaces| && s in Found(cluster, namespaces[i])
            && EntryKey(k, s, namespaces[i], current, clusterDomain)) {
        var i, s: DnsLabel :| 0 <= i < |namespaces| && s in Found(cluster, namespaces[i])
          && EntryKey(k, s, namespaces[i], current, clusterDomain);
        if i == |namespaces| - 1 {
          assert k in NamespaceHosts(cluster, last, current, clusterDomain);
        } else {
          assert pre[i] == namespaces[i];
        }
      }
    }
  }

  /**
   * When no searched namespace name has a dot, every entry name of a Service
   * found in a searched namespace carries that Service's address.
   */
  lemma {:induction false} HostsTableValueAt(namespaces: seq<string>, current: string, clusterDomain: string, cluster: Cluster,
                                             i: int, s: DnsLabel, k: string)
    requires forall j :: 0 <= j < |namespaces| ==> '.' !in namespaces[j]
    requires 0 <= i < |namespaces| && s in Found(cluster, namespaces[i])
    requires EntryKey(k, s, namespaces[i], current, clusterDomain)
    ensures k in HostsTable(namespaces, current, clusterDomain, cluster)
    ensures HostsTable(namespaces, current, clusterDomain, cluster)[k] == Found(cluster, namespaces[i])[s]
    decreases |namespaces|
  {
    var pre := namespaces[..|namespaces| - 1];
    var last := namespaces[|namespaces| - 1];
    NamespaceHostsAt(cluster, last, current, clusterDomain, k);
    if namespaces[i] != last {
      assert pre[i] == namespaces[i];
      HostsTableValueAt(pre, current, clusterDomain, cluster, i, s, k);
      if k in NamespaceHosts(cluster, last, current, clusterDomain) {
        var s': DnsLabel :| s' in Found(cluster, last) && EntryKey(k, s', last, current, clusterDomain);
        NotSameEntry(k, s, namespaces[i], s', last, current, clusterDomain);
      }
    }
  }

  /**
   * The three names of a Service found in a searched namespace `ns` map to its
   * address: `svc.ns` and `svc.ns.svc.<domain>` always, the bare `svc` when
   * `ns` is the current namespace. Namespace names are assumed dot-free, as
   * Kubernetes requires.
   */
  lemma DumpedServiceNames(namespaces: seq<string>, current: string, clusterDomain: string, cluster: Cluster,
                           i: int, s: DnsLabel)
    requires forall j :: 0 <= j < |namespaces| ==> '.' !in namespaces[j]
    requires 0 <= i < |namespaces| && s in Found(cluster, namespaces[i])
    ensures var t := HostsTable(namespaces, current, clusterDomain, cluster);
      var ip := Found(cluster, namespaces[i])[s];
      && QualifiedKey(s, namespaces[i]) in t && t[QualifiedKey(s, namespaces[i])] == ip
      && FullKey(s, namespaces[i], clusterDomain) in t && t[FullKey(s, namespaces[i], clusterDomain)] == ip
      && (namespaces[i] == current ==> s in t && t[s] == ip)
  {
    var ns := namespaces[i];
    HostsTableValueAt(namespaces, current, clusterDomain, cluster, i, s, QualifiedKey(s, ns));
    HostsTableValueAt(namespaces, current, clusterDomain, cluster, i, s, FullKey(s, ns, clusterDomain));
    if ns == current {
      HostsTableValueAt(namespaces, current, clusterDomain, cluster, i, s, s);
    }
  }

  /**
   * A bare name (one without a dot) is dumped only for a Service found in the
   * current namespace, and only when the current namespace is searched.
   */
  lemma BareNamesOnlyFromCurrent(namespaces: seq<string>, current: string, clusterDomain: string, cluster: Cluster, k: string)
    requires k in HostsTable(namespaces, current, clusterDomain, cluster) && '.' !in k
    ensures current in namespaces
    ensures k in Found(cluster, current)
  {
    HostsTableKeys(namespaces, current, clusterDomain, cluster, k);
    var i, s: DnsLabel :| 0 <= i < |namespaces| && s in Found(cluster, namespaces[i])
      && EntryKey(k, s, namespaces[i], current, clusterDomain);
    KeysHaveDots(s, namespaces[i], clusterDomain);
  }

  /**
   * Visiting distinct Services, one namespace adds three names per Service
   * when it is the current namespace and two otherwise: no name is shared.
   */
  lemma {:induction false} NamespaceEntriesSize(namespace: string, current: string, clusterDomain: string,
                                                found: map<DnsLabel, string>, names: seq<DnsLabel>)
    requires forall i :: 0 <= i < |names| ==> names[i] in found
    requires forall i, j :: 0 <= i < j < |names| ==> names[i] != names[j]
    ensures |NamespaceEntries(namespace, current, clusterDomain, found, names)|
         == (if namespace == current then 3 else 2) * |names|
    decreases |names|
  {
    if |names| > 0 {
      var pre := names[..|names| - 1];
      var svc := names[|names| - 1];
      var prev := NamespaceEntries(namespace, current, clusterDomain, found, pre);
      NamespaceEntriesSize(namespace, current, clusterDomain, found, pre);
      var q := QualifiedKey(svc, namespace);
      var f := FullKey(svc, namespace, clusterDomain);
      KeysHaveDots(svc, namespace, clusterDomain);
      assert |q| < |f|;
      forall k | EntryKey(k, svc, namespace, current, clusterDomain)
        ensures k !in prev
      {
        NamespaceEntriesAt(namespace, current, clusterDomain, found, pre, k);
        if k in prev {
          var i :| 0 <= i < |pre| && EntryKey(k, pre[i], namespace, current, clusterDomain);
          EntryKeyUnique(k, pre[i], svc, namespace, current, clusterDomain);
        }
      }
      assert EntryKey(q, svc, namespace, current, clusterDomain);
      assert EntryKey(f, svc, namespace, current, clusterDomain);
      if namespace == current {
        assert EntryKey(svc, svc, namespace, current, clusterDomain);
      }
    }
  }
}
