/**
 * The decisions of the connect command: which DNS strategy a mode string
 * selects and what it asks of the resolver collaborators, when a local-dns
 * watch event rebuilds the table, and how the shadow workload is named and
 * configured. The resolver override (`DumpHosts`, `SetNameServer`,
 * `SetupLocalDns`) is not performed: it is returned as a list of effects.
 */
module Connect {
  import opened Wrappers
  import opened Strings
  import opened Kube
  import Collection
  import opened ConnectHosts

  /** The three DNS mode spellings. */
  const DnsModeHosts: string := "hosts"
  const DnsModePodDns: string := "pod-dns"
  const DnsModeLocalDns: string := "local-dns"

  /** The loopback address the local resolver listens on. */
  const Localhost: string := "127.0.0.1"

  /** Service-add events this many whole seconds or less after setup are the watch's initial burst. */
  const ServiceAddSettleSeconds: int := 3

  /** Shadow names: a random suffix per session, or one fixed name when the shadow is shared. */
  const ShadowNamePrefix: string := "kt-connect-shadow-"
  const SharedShadowName: string := "kt-connect-shadow-daemon"

  datatype ConnectError =
    | InvalidDnsMode(mode: string)
    | ShadowFailure(cause: ApiError)

  /**
   * The error text the command reports: the cluster's error as it is, or the
   * rejected mode quoted (`InvalidDnsModeMessage` shows the valid modes are
   * named too).
   */
  function Message(e: ConnectError): (r: string)
    ensures e.ShadowFailure? ==> r == e.cause
    ensures e.InvalidDnsMode? ==> IsInfix(e.mode, r) && HasPrefix(r, "invalid dns mode: '")
  {
    match e
    case InvalidDnsMode(mode) =>
      var lead := "invalid dns mode: '";
      var tail := "', supportted mode are " + DnsModeLocalDns + ", " + DnsModePodDns + ", " + DnsModeHosts;
      InfixAt(lead, mode, tail);
      assert (lead + mode + tail)[..|lead|] == lead;
      lead + mode + tail
    case ShadowFailure(cause) => cause
  }

  /** A parsed DNS mode; `hosts` carries the text of its optional namespace list. */
  datatype DnsMode = Hosts(extraNamespaces: string) | PodDns | LocalDns

  /**
   * The mode choice of `setupDns`. Any string starting with `hosts` selects
   * the hosts dump; the namespace list is the text after a `:` that directly
   * follows the prefix, and only when some text follows it. `pod-dns` and
   * `local-dns` must match exactly; everything else is rejected.
   */
  function ParseDnsMode(mode: string): (r: Result<DnsMode, ConnectError>)
    ensures (r.Success? && r.value.Hosts?) <==> HasPrefix(mode, DnsModeHosts)
    ensures r == Success(PodDns) <==> mode == DnsModePodDns
    ensures r == Success(LocalDns) <==> mode == DnsModeLocalDns
    ensures r.Failure? <==> !HasPrefix(mode, DnsModeHosts) && mode != DnsModePodDns && mode != DnsModeLocalDns
    ensures r.Failure? ==> r.error == InvalidDnsMode(mode)
    ensures r.Success? && r.value.Hosts? ==>
      (r.value.extraNamespaces != "" <==> |mode| > |DnsModeHosts| + 1 && mode[|DnsModeHosts|] == ':')
    ensures r.Success? && r.value.Hosts? && r.value.extraNamespaces != "" ==>
      mode == DnsModeHosts + ":" + r.value.extraNamespaces
  {
    var pos := |DnsModeHosts|;
    if HasPrefix(mode, DnsModeHosts) then
      assert mode[0] == DnsModeHosts[0];
      if |mode| > pos + 1 && mode[pos..pos + 1] == ":" then
        assert mode == mode[..pos] + ":" + mode[pos + 1..];
        Success(Hosts(mode[pos + 1..]))
      else Success(Hosts(""))
    else if mode == DnsModePodDns then Success(PodDns)
    else if mode == DnsModeLocalDns then Success(LocalDns)
    else Failure(InvalidDnsMode(mode))
  }

  /** The invalid-mode error repeats the rejected mode and names all three valid modes. */
  lemma InvalidDnsModeMessage(mode: string)
    ensures IsInfix(mode, Message(InvalidDnsMode(mode)))
    ensures IsInfix(DnsModeLocalDns, Message(InvalidDnsMode(mode)))
    ensures IsInfix(DnsModePodDns, Message(InvalidDnsMode(mode)))
    ensures IsInfix(DnsModeHosts, Message(InvalidDnsMode(mode)))
  {
    var a := "invalid dns mode: '";
    var b := "', supportted mode are ";
    var msg := Message(InvalidDnsMode(mode));
    assert msg == a + mode + (b + DnsModeLocalDns + ", " + DnsModePodDns + ", " + DnsModeHosts);
    assert msg == (a + mode + b) + DnsModeLocalDns + (", " + DnsModePodDns + ", " + DnsModeHosts);
    InfixAt(a + mode + b, DnsModeLocalDns, ", " + DnsModePodDns + ", " + DnsModeHosts);
    assert msg == (a + mode + b + DnsModeLocalDns + ", ") + DnsModePodDns + (", " + DnsModeHosts);
    InfixAt(a + mode + b + DnsModeLocalDns + ", ", DnsModePodDns, ", " + DnsModeHosts);
    assert msg == (a + mode + b + DnsModeLocalDns + ", " + DnsModePodDns + ", ") + DnsModeHosts + "";
    InfixAt(a + mode + b + DnsModeLocalDns + ", " + DnsModePodDns + ", ", DnsModeHosts, "");
  }

  /** The worked examples of the mode grammar: a namespace list, a bare prefix, an empty list, a typo. */
  lemma DnsModeExamples()
    ensures ParseDnsMode("hosts:team-a,team-b") == Success(Hosts("team-a,team-b"))
    ensures ParseDnsMode("hosts") == Success(Hosts(""))
    ensures ParseDnsMode("hosts:") == Success(Hosts(""))
    ensures ParseDnsMode("foo") == Failure(InvalidDnsMode("foo"))
  {
  }

  /** A comma-separated namespace list is dumped namespace by namespace. */
  lemma NamespaceListExample(current: string)
    ensures NamespacesToDump(current, "team-a,team-b") == ["team-a", "team-b"]
  {
    var parts := ["team-a", "team-b"];
    assert Join(parts, ',') == "team-a,team-b";
    SplitJoin(parts, ',');
  }

  /** A request to the local resolver collaborators. */
  datatype DnsEffect =
    | DumpHosts(hosts: map<string, string>)
    | SetNameServer(address: string)
    | StartLocalDns(upstream: string, port: int)

  /** The state the local-dns watches share: namespace, setup time (Unix seconds) and headless-backing pods. */
  datatype LocalDnsSession = LocalDnsSession(namespace: string, setupTime: int, headlessPods: seq<string>)

  /** What `setupDns` does: the resolver requests in order, and the watch state when watches start. */
  datatype DnsSetup = DnsSetup(effects: seq<DnsEffect>, watch: Option<LocalDnsSession>)

  /** The platform flag and the two resolver ports it chooses between. */
  datatype Platform = Platform(isWindows: bool, standardDnsPort: int, alternativeDnsPort: int)

  /** The local resolver port: the standard one on Windows, the alternative one elsewhere. */
  function LocalDnsPort(p: Platform): (r: int)
    ensures p.isWindows ==> r == p.standardDnsPort
    ensures !p.isWindows ==> r == p.alternativeDnsPort
  {
    if p.isWindows then p.standardDnsPort else p.alternativeDnsPort
  }

  /**
   * `dumpCurrentNamespaceToHost`: the headless-backing pods of the namespace,
   * and a dump of its Services under their bare names only.
   */
  function DumpCurrentNamespaceToHost(cluster: Cluster, namespace: string): (r: (seq<string>, DnsEffect))
    ensures r.1.DumpHosts? && r.1.hosts == Found(cluster, namespace)
    ensures forall k :: k in r.1.hosts ==> '.' !in k
    ensures r.0 == ServiceHostsIn(cluster, namespace).headlessPods
  {
    var found := ServiceHostsIn(cluster, namespace);
    (found.headlessPods, DumpHosts(found.hosts))
  }

  /**
   * `setupDns`: the hosts mode dumps the table of the listed namespaces once;
   * pod-dns only points the resolver at the shadow pod; local-dns dumps the
   * bare names of the current namespace, starts the local resolver and only
   * then points the system resolver at it, and starts the watches.
   */
  function SetupDns(mode: string, namespace: string, clusterDomain: string, shadowPodIp: string,
                    cluster: Cluster, platform: Platform, now: int): (r: Result<DnsSetup, ConnectError>)
    ensures r.Failure? <==> ParseDnsMode(mode).Failure?
    ensures r.Failure? ==> r.error == InvalidDnsMode(mode)
    ensures HasPrefix(mode, DnsModeHosts) ==>
      r == Success(DnsSetup([DumpHosts(DumpToHost(namespace, ParseDnsMode(mode).value.extraNamespaces, clusterDomain, cluster))], None))
    ensures mode == DnsModePodDns ==> r == Success(DnsSetup([SetNameServer(shadowPodIp)], None))
    ensures mode == DnsModeLocalDns ==>
      && r.Success? && |r.value.effects| == 3
      && r.value.effects[0] == DumpHosts(Found(cluster, namespace))
      && r.value.effects[1] == StartLocalDns(shadowPodIp, LocalDnsPort(platform))
      && r.value.effects[2] == SetNameServer(Localhost + ":" + IntToString(LocalDnsPort(platform)))
      && r.value.watch == Some(LocalDnsSession(namespace, now, ServiceHostsIn(cluster, namespace).headlessPods))
  {
    match ParseDnsMode(mode)
    case Failure(e) => Failure(e)
    case Success(Hosts(extra)) =>
      Success(DnsSetup([DumpHosts(DumpToHost(namespace, extra, clusterDomain, cluster))], None))
    case Success(PodDns) => Success(DnsSetup([SetNameServer(shadowPodIp)], None))
    case Success(LocalDns) =>
      var (headlessPods, dump) := DumpCurrentNamespaceToHost(cluster, namespace);
      var port := LocalDnsPort(platform);
      Success(DnsSetup(
        [dump, StartLocalDns(shadowPodIp, port), SetNameServer(Localhost + ":" + IntToString(port))],
        Some(LocalDnsSession(namespace, now, headlessPods))))
  }

  /**
   * Which resolver requests each valid mode makes: every mode but pod-dns
   * writes a table, only local-dns starts a resolver and the watches, and it
   * starts that resolver before redirecting to it.
   */
  lemma SetupDnsEffects(mode: string, namespace: string, clusterDomain: string, shadowPodIp: string,
                        cluster: Cluster, platform: Platform, now: int)
    requires ParseDnsMode(mode).Success?
    ensures var effects := SetupDns(mode, namespace, clusterDomain, shadowPodIp, cluster, platform, now).value.effects;
      && ((exists i :: 0 <= i < |effects| && effects[i].DumpHosts?) <==> mode != DnsModePodDns)
      && ((exists i :: 0 <= i < |effects| && effects[i].StartLocalDns?) <==> mode == DnsModeLocalDns)
      && (SetupDns(mode, namespace, clusterDomain, shadowPodIp, cluster, platform, now).value.watch.Some? <==> mode == DnsModeLocalDns)
      && (forall i, j :: 0 <= i < |effects| && 0 <= j < |effects| && effects[i].StartLocalDns? && effects[j].SetNameServer? ==> i < j)
  {
    var effects := SetupDns(mode, namespace, clusterDomain, shadowPodIp, cluster, platform, now).value.effects;
    if mode == DnsModeLocalDns {
      assert effects[0].DumpHosts? && effects[1].StartLocalDns?;
    } else if mode != DnsModePodDns {
      assert effects[0].DumpHosts?;
    }
  }

  /**
   * A cluster change the local-dns watches report: a Service add (the first
   * Service callback), the other Service callback, and the pod callback.
   */
  datatype WatchEvent = ServiceAdded | ServiceChanged | PodChanged(podName: string)

  /**
   * The watch callbacks' guards: a Service add rebuilds only after the
   * settling window, any other Service change always, a pod change only for a pod in
   * the current headless list.
   */
  function ShouldRebuild(session: LocalDnsSession, event: WatchEvent, now: int): (r: bool)
    ensures event.ServiceAdded? ==> (r <==> now >= session.setupTime + ServiceAddSettleSeconds + 1)
    ensures event.ServiceChanged? ==> r
    ensures event.PodChanged? ==> (r <==> event.podName in session.headlessPods)
  {
    match event
    case ServiceAdded => now - session.setupTime > ServiceAddSettleSeconds
    case ServiceChanged => true
    case PodChanged(name) => Collection.Contains<string, string>(name, Collection.SliceOf(session.headlessPods))
  }

  /**
   * One watch callback: a rebuild re-derives the headless list and the bare
   * table from the cluster as it is at rebuild time; otherwise nothing happens.
   */
  function OnWatchEvent(session: LocalDnsSession, event: WatchEvent, now: int, cluster: Cluster): (r: (LocalDnsSession, seq<DnsEffect>))
    ensures r.0.namespace == session.namespace && r.0.setupTime == session.setupTime
    ensures !ShouldRebuild(session, event, now) ==> r.0 == session && r.1 == []
    ensures ShouldRebuild(session, event, now) ==>
      && r.0.headlessPods == ServiceHostsIn(cluster, session.namespace).headlessPods
      && r.1 == [DumpHosts(Found(cluster, session.namespace))]
  {
    if ShouldRebuild(session, event, now) then
      var (headlessPods, dump) := DumpCurrentNamespaceToHost(cluster, session.namespace);
      (session.(headlessPods := headlessPods), [dump])
    else (session, [])
  }

  /**
   * The settling window: a Service add rebuilds exactly when at least four
   * whole seconds have passed since setup, and once it does, it does at every
   * later time too.
   */
  lemma ServiceAddDebounce(session: LocalDnsSession, now: int, later: int)
    requires now <= later
    ensures ShouldRebuild(session, ServiceAdded, now) <==> now >= session.setupTime + ServiceAddSettleSeconds + 1
    ensures ShouldRebuild(session, ServiceAdded, now) ==> ShouldRebuild(session, ServiceAdded, later)
  {
  }

  /** A pod event rebuilds exactly when the pod is one of the tracked headless-backing pods. */
  lemma PodEventRebuildsTrackedPods(session: LocalDnsSession, name: string, now: int)
    ensures ShouldRebuild(session, PodChanged(name), now) <==> name in session.headlessPods
  {
  }

  /**
   * A rebuild depends only on the cluster, never on the table or headless list
   * it replaces, so rebuilding twice from unchanged cluster state gives the
   * same table as rebuilding once.
   */
  lemma RebuildIsWholesale(session: LocalDnsSession, other: seq<string>, now: int, later: int, cluster: Cluster)
    ensures OnWatchEvent(session, ServiceChanged, now, cluster)
         == OnWatchEvent(session.(headlessPods := other), ServiceChanged, later, cluster)
    ensures var once := OnWatchEvent(session, ServiceChanged, now, cluster);
      OnWatchEvent(once.0, ServiceChanged, later, cluster) == once
  {
  }

  /**
   * When the Service listing fails, a rebuild dumps an empty table and forgets
   * every headless-backing pod: the previous table is not kept.
   */
  lemma RebuildAfterListingFailure(session: LocalDnsSession, event: WatchEvent, now: int, cluster: Cluster)
    requires ShouldRebuild(session, event, now)
    requires cluster.listServices(session.namespace).Failure?
    ensures OnWatchEvent(session, event, now, cluster).1 == [DumpHosts(map[])]
    ensures OnWatchEvent(session, event, now, cluster).0.headlessPods == []
  {
  }

  /** The environment variables the shadow workload receives. */
  datatype EnvKey = LocalDomainsVar | DnsProtocolVar | LogLevelVar

  /**
   * `getEnvs`: local domains when there are any, the DNS transport (`tcp` for
   * local-dns, `udp` otherwise) and the log level (`debug` or `info`).
   */
  function GetEnvs(localDomains: string, dnsMode: string, debug: bool): (r: map<EnvKey, string>)
    ensures DnsProtocolVar in r && LogLevelVar in r
    ensures LocalDomainsVar in r <==> localDomains != ""
    ensures LocalDomainsVar in r ==> r[LocalDomainsVar] == localDomains
    ensures r[DnsProtocolVar] in {"tcp", "udp"}
    ensures r[DnsProtocolVar] == "tcp" <==> dnsMode == DnsModeLocalDns
    ensures r[LogLevelVar] in {"debug", "info"}
    ensures r[LogLevelVar] == "debug" <==> debug
  {
    var withDomains: map<EnvKey, string> := if localDomains != "" then map[LocalDomainsVar := localDomains] else map[];
    var withProtocol := withDomains[DnsProtocolVar := if dnsMode == DnsModeLocalDns then "tcp" else "udp"];
    withProtocol[LogLevelVar := if debug then "debug" else "info"]
  }

  /** The label keys and values of the connect shadow; Go requires the two keys of its map literal to differ. */
  datatype ConnectLabelNames = ConnectLabelNames(controlBy: string, kubernetesToolkit: string, ktRole: string, roleConnectShadow: string)

  /** `getLabels`: exactly the provenance marker and the connect-shadow role marker. */
  function GetLabels(names: ConnectLabelNames): (r: map<string, string>)
    requires names.controlBy != names.ktRole
    ensures r.Keys == {names.controlBy, names.ktRole}
    ensures r[names.controlBy] == names.kubernetesToolkit && r[names.ktRole] == names.roleConnectShadow
  {
    map[names.controlBy := names.kubernetesToolkit, names.ktRole := names.roleConnectShadow]
  }

  /**
   * The name choice of `getOrCreateShadow`: the fixed daemon name when the
   * shadow is shared, otherwise the prefix and the lower-cased random suffix.
   */
  function ShadowName(shared: bool, randomSuffix: string): (r: string)
    ensures shared ==> r == SharedShadowName
    ensures !shared ==> HasPrefix(r, ShadowNamePrefix) && r[|ShadowNamePrefix|..] == ToLower(randomSuffix)
  {
    if shared then SharedShadowName else ShadowNamePrefix + ToLower(randomSuffix)
  }

  /**
   * Exclusive sessions whose suffixes differ (ignoring case) get different
   * shadows, and a five-character suffix never yields the shared name.
   */
  lemma ShadowNamesSeparateSessions(a: string, b: string)
    ensures ToLower(a) != ToLower(b) ==> ShadowName(false, a) != ShadowName(false, b)
    ensures |a| == 5 ==> ShadowName(false, a) != ShadowName(true, b)
  {
  }

  /** What the cluster is asked to create: name, labels, annotations and environment. */
  datatype ShadowRequest = ShadowRequest(name: string, labels: map<string, string>, annotations: map<string, string>, envs: map<EnvKey, string>)

  /** What the cluster returns for a ready shadow. */
  datatype ShadowEndpoint = ShadowEndpoint(endpointIp: string, podName: string, privateKeyPath: string)

  /**
   * `getOrCreateShadow`: asks the cluster for the chosen name with the connect
   * labels, no annotations and the connect environment, and passes on the
   * answer or its error.
   */
  function GetOrCreateShadow(shared: bool, randomSuffix: string, labelNames: ConnectLabelNames,
                             localDomains: string, dnsMode: string, debug: bool,
                             create: ShadowRequest -> Result<ShadowEndpoint, ApiError>): (r: Result<ShadowEndpoint, ConnectError>)
    requires labelNames.controlBy != labelNames.ktRole
    ensures var request := ShadowRequest(ShadowName(shared, randomSuffix), GetLabels(labelNames), map[],
                                         GetEnvs(localDomains, dnsMode, debug));
      && (r.Success? <==> create(request).Success?)
      && (r.Success? ==> r.value == create(request).value)
      && (r.Failure? ==> r.error == ShadowFailure(create(request).error))
  {
    var request := ShadowRequest(ShadowName(shared, randomSuffix), GetLabels(labelNames), map[],
                                 GetEnvs(localDomains, dnsMode, debug));
    match create(request)
    case Success(endpoint) => Success(endpoint)
    case Failure(e) => Failure(ShadowFailure(e))
  }
}
