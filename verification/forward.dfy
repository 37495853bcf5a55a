/**
 * The forward command's resolution of a Service port to a pod port: which
 * Service port entry applies, which pod is used and which container port a
 * named target port denotes. The port forward itself is not performed: a
 * successful resolution is returned as the forward to set up.
 */
module Forward {
  import opened Wrappers
  import opened Strings
  import opened Kube

  /** The "no port" value of the resolution, as in the source. */
  const NoPort: int := -1

  datatype ForwardError =
    | ClusterFailure(cause: ApiError)
    | PortNotAvailable(remotePort: int, serviceName: string)
    | NoPodAvailable(serviceName: string)
    | PortNotFit(remotePort: int, serviceName: string)
    | NotImplemented

  /**
   * The error text the command reports: a cluster error as it is, otherwise a
   * sentence naming the port (in decimal) and the Service it concerns.
   */
  function Message(e: ForwardError): (r: string)
    ensures e.ClusterFailure? ==> r == e.cause
    ensures e.PortNotAvailable? ==>
      IsInfix(IntToString(e.remotePort), r) && IsInfix(e.serviceName, r) && IsInfix(" not available for service ", r)
    ensures e.NoPodAvailable? ==> IsInfix(e.serviceName, r) && HasPrefix(r, "no pod available")
    ensures e.PortNotFit? ==>
      IsInfix(IntToString(e.remotePort), r) && IsInfix(e.serviceName, r) && IsInfix(" not fit for any pod of service ", r)
    ensures e.NotImplemented? ==> HasPrefix(r, "redirecting to an arbitrary address")
  {
    match e
    case ClusterFailure(cause) => cause
    case PortNotAvailable(port, name) => Format2("port ", IntToString(port), " not available for service ", name)
    case NoPodAvailable(name) => Format1("no pod available for service ", name, "")
    case PortNotFit(port, name) => Format2("port ", IntToString(port), " not fit for any pod of service ", name)
    case NotImplemented => "redirecting to an arbitrary address havn't been implemented yet"
  }

  /** The forward to set up: from `localPort` to `podPort` of the named pod. */
  datatype PortForward = PortForward(podName: string, podPort: int, localPort: int)

  /**
   * The target port of the last Service port entry whose port is `remotePort`;
   * `None` stands for the source's "no type" sentinel.
   */
  function FindTargetPort(ports: seq<ServicePort>, remotePort: int): (r: Option<IntOrString>)
    ensures r.None? <==> forall i :: 0 <= i < |ports| ==> ports[i].port != remotePort
    ensures r.Some? ==> exists i :: 0 <= i < |ports| && ports[i].port == remotePort && ports[i].targetPort == r.value
                                   && forall j :: i < j < |ports| ==> ports[j].port != remotePort
  {
    if |ports| == 0 then None
    else if ports[|ports| - 1].port == remotePort then Some(ports[|ports| - 1].targetPort)
    else FindTargetPort(ports[..|ports| - 1], remotePort)
  }

  /** The scan over the Service's ports as the command writes it: every matching entry overwrites the choice. */
  method ScanTargetPort(ports: seq<ServicePort>, remotePort: int) returns (target: Option<IntOrString>)
    ensures target == FindTargetPort(ports, remotePort)
  {
    target := None;
    var i := 0;
    while i < |ports|
      invariant 0 <= i <= |ports|
      invariant target == FindTargetPort(ports[..i], remotePort)
    {
      assert ports[..i + 1][..i] == ports[..i];
      if ports[i].port == remotePort {
        target := Some(ports[i].targetPort);
      }
      i := i + 1;
    }
    assert ports[..|ports|] == ports;
  }

  /** The first port of one container with the given name. */
  function NamedPortIn(ports: seq<ContainerPort>, name: string): (r: Option<int>)
    ensures r.None? <==> forall j :: 0 <= j < |ports| ==> ports[j].name != name
    ensures r.Some? ==> exists j :: 0 <= j < |ports| && ports[j].name == name && ports[j].containerPort == r.value
                                   && forall j' :: 0 <= j' < j ==> ports[j'].name != name
  {
    if |ports| == 0 then None
    else if ports[0].name == name then Some(ports[0].containerPort)
    else
      var rest := NamedPortIn(ports[1..], name);
      assert forall j :: 0 < j < |ports| ==> ports[j] == ports[1..][j - 1];
      rest
  }

  /** No container before index `c` declares a port with this name. */
  predicate NoPortNamedBefore(containers: seq<Container>, name: string, c: int)
    requires 0 <= c <= |containers|
  {
    forall k :: 0 <= k < c ==> NamedPortIn(containers[k].ports, name).None?
  }

  /** Container `c` is the first one that declares a port with this name. */
  predicate FirstNamedContainer(containers: seq<Container>, name: string, c: int) {
    && 0 <= c < |containers|
    && NamedPortIn(containers[c].ports, name).Some?
    && NoPortNamedBefore(containers, name, c)
  }

  /** The port named `name` in the first container that declares one, scanning containers then ports in order. */
  function FindNamedPort(containers: seq<Container>, name: string): (r: Option<int>)
    ensures r.None? <==> NoPortNamedBefore(containers, name, |containers|)
    ensures r.Some? ==> exists c :: FirstNamedContainer(containers, name, c) && NamedPortIn(containers[c].ports, name) == r
  {
    if |containers| == 0 then None
    else
      var first := NamedPortIn(containers[0].ports, name);
      if first.Some? then
        assert FirstNamedContainer(containers, name, 0);
        first
      else
        var tail := containers[1..];
        var rest := FindNamedPort(tail, name);
        if rest.Some? then
          var c :| FirstNamedContainer(tail, name, c) && NamedPortIn(tail[c].ports, name) == rest;
          assert containers[c + 1] == tail[c];
          assert forall k :: 1 <= k < c + 1 ==> containers[k] == tail[k - 1];
          assert FirstNamedContainer(containers, name, c + 1);
          rest
        else
          assert forall k :: 1 <= k < |containers| ==> containers[k] == tail[k - 1];
          rest
  }

  /** When port `p` is the first with the name, it is the one `NamedPortIn` finds. */
  lemma NamedPortAt(ports: seq<ContainerPort>, name: string, p: int)
    requires 0 <= p < |ports| && ports[p].name == name
    requires forall j :: 0 <= j < p ==> ports[j].name != name
    ensures NamedPortIn(ports, name) == Some(ports[p].containerPort)
  {
    var j :| 0 <= j < |ports| && ports[j].name == name && ports[j].containerPort == NamedPortIn(ports, name).value
             && forall j' :: 0 <= j' < j ==> ports[j'].name != name;
    assert j == p;
  }

  /** When container `c` is the first to declare the name, its port is the one `FindNamedPort` finds. */
  lemma {:induction false} FindNamedPortAt(containers: seq<Container>, name: string, c: int)
    requires FirstNamedContainer(containers, name, c)
    ensures FindNamedPort(containers, name) == NamedPortIn(containers[c].ports, name)
    decreases c
  {
    if c > 0 {
      assert NamedPortIn(containers[0].ports, name).None?;
      var tail := containers[1..];
      assert tail[c - 1] == containers[c];
      assert forall k :: 0 <= k < c - 1 ==> tail[k] == containers[k + 1];
      assert FirstNamedContainer(tail, name, c - 1);
      FindNamedPortAt(tail, name, c - 1);
    }
  }

  /**
   * The nested scan as the command writes it: containers, then their ports,
   * leaving both loops at the first port with the name; the sentinel stays
   * when none has it.
   */
  method ScanNamedPort(containers: seq<Container>, name: string) returns (podPort: int)
    ensures FindNamedPort(containers, name).Some? ==> podPort == FindNamedPort(containers, name).value
    ensures FindNamedPort(containers, name).None? ==> podPort == NoPort
  {
    podPort := NoPort;
    var c := 0;
    label containerLoop:
    while c < |containers|
      invariant 0 <= c <= |containers|
      invariant podPort == NoPort
      invariant NoPortNamedBefore(containers, name, c)
    {
      var ports := containers[c].ports;
      var p := 0;
      while p < |ports|
        invariant 0 <= p <= |ports|
        invariant podPort == NoPort
        invariant forall j :: 0 <= j < p ==> ports[j].name != name
      {
        if ports[p].name == name {
          podPort := ports[p].containerPort;
          NamedPortAt(ports, name, p);
          FindNamedPortAt(containers, name, c);
          break containerLoop;
        }
        p := p + 1;
      }
      c := c + 1;
    }
  }

  /** The pod port a target port denotes in the chosen pod, or the sentinel. */
  function PodPort(target: IntOrString, pod: Pod): (r: int)
    ensures target.IntVal? ==> r == target.intVal
    ensures target.StrVal? && FindNamedPort(pod.containers, target.strVal).Some? ==>
      r == FindNamedPort(pod.containers, target.strVal).value
    ensures target.StrVal? && FindNamedPort(pod.containers, target.strVal).None? ==> r == NoPort
  {
    match target
    case IntVal(v) => v
    case StrVal(s) => if FindNamedPort(pod.containers, s).Some? then FindNamedPort(pod.containers, s).value else NoPort
  }

  /**
   * `RedirectService`: the Service, then the port entry, then the pods of its
   * selector, then the pod port in the first pod, each failure reported in
   * that order; success forwards `localPort` to the first pod.
   */
  function RedirectService(serviceName: string, localPort: int, remotePort: int, namespace: string, cluster: Cluster): (r: Result<PortForward, ForwardError>)
    ensures cluster.getService(serviceName, namespace).Failure? ==>
      r == Failure(ClusterFailure(cluster.getService(serviceName, namespace).error))
    ensures cluster.getService(serviceName, namespace).Success? ==>
      var svc := cluster.getService(serviceName, namespace).value;
      && (FindTargetPort(svc.ports, remotePort).None? ==> r == Failure(PortNotAvailable(remotePort, serviceName)))
      && (FindTargetPort(svc.ports, remotePort).Some? && cluster.podsByLabel(svc.selector, namespace).Failure? ==>
            r == Failure(ClusterFailure(cluster.podsByLabel(svc.selector, namespace).error)))
      && (FindTargetPort(svc.ports, remotePort).Some? && cluster.podsByLabel(svc.selector, namespace) == Success([]) ==>
            r == Failure(NoPodAvailable(serviceName)))
      && (FindTargetPort(svc.ports, remotePort).Some? && cluster.podsByLabel(svc.selector, namespace).Success?
          && |cluster.podsByLabel(svc.selector, namespace).value| > 0 ==>
            var target := FindTargetPort(svc.ports, remotePort).value;
            var first := cluster.podsByLabel(svc.selector, namespace).value[0];
            && (PodPort(target, first) == NoPort ==> r == Failure(PortNotFit(remotePort, serviceName)))
            && (PodPort(target, first) != NoPort ==> r == Success(PortForward(first.name, PodPort(target, first), localPort))))
    ensures r.Success? ==>
      && cluster.getService(serviceName, namespace).Success?
      && var svc := cluster.getService(serviceName, namespace).value;
         && FindTargetPort(svc.ports, remotePort).Some?
         && cluster.podsByLabel(svc.selector, namespace).Success?
         && var pods := cluster.podsByLabel(svc.selector, namespace).value;
            && |pods| > 0
            && r.value.podName == pods[0].name
            && r.value.localPort == localPort
            && r.value.podPort != NoPort
            && match FindTargetPort(svc.ports, remotePort).value
               case IntVal(v) => r.value.podPort == v
               case StrVal(s) => FindNamedPort(pods[0].containers, s) == Some(r.value.podPort)
  {
    match cluster.getService(serviceName, namespace)
    case Failure(e) => Failure(ClusterFailure(e))
    case Success(svc) =>
      match FindTargetPort(svc.ports, remotePort)
      case None => Failure(PortNotAvailable(remotePort, serviceName))
      case Some(target) =>
        match cluster.podsByLabel(svc.selector, namespace)
        case Failure(e) => Failure(ClusterFailure(e))
        case Success(pods) =>
          if |pods| == 0 then Failure(NoPodAvailable(serviceName))
          else
            var podPort := PodPort(target, pods[0]);
            if podPort == NoPort then Failure(PortNotFit(remotePort, serviceName))
            else Success(PortForward(pods[0].name, podPort, localPort))
  }

  /**
   * A port the Service does not expose is reported before the pods are looked
   * at, so the answer does not depend on the pods at all.
   */
  lemma PortCheckPrecedesPodLookup(serviceName: string, localPort: int, remotePort: int, namespace: string,
                                   cluster: Cluster, podsByLabel: (map<string, string>, string) -> Result<seq<Pod>, ApiError>)
    requires cluster.getService(serviceName, namespace).Success?
    requires FindTargetPort(cluster.getService(serviceName, namespace).value.ports, remotePort).None?
    ensures RedirectService(serviceName, localPort, remotePort, namespace, cluster)
         == RedirectService(serviceName, localPort, remotePort, namespace, cluster.(podsByLabel := podsByLabel))
    ensures RedirectService(serviceName, localPort, remotePort, namespace, cluster)
         == Failure(PortNotAvailable(remotePort, serviceName))
  {
  }

  /**
   * Only the first pod of the selector matters, and a numeric target port is
   * used as it is, whatever the pod's containers declare.
   */
  lemma FirstPodDecides(serviceName: string, localPort: int, remotePort: int, namespace: string, cluster: Cluster, pods: seq<Pod>)
    requires cluster.getService(serviceName, namespace).Success?
    requires var svc := cluster.getService(serviceName, namespace).value;
      cluster.podsByLabel(svc.selector, namespace) == Success(pods)
    requires |pods| > 0
    ensures var svc := cluster.getService(serviceName, namespace).value;
      var target := FindTargetPort(svc.ports, remotePort);
      target.Some? && target.value.IntVal? && target.value.intVal != NoPort ==>
        RedirectService(serviceName, localPort, remotePort, namespace, cluster)
          == Success(PortForward(pods[0].name, target.value.intVal, localPort))
    ensures var svc := cluster.getService(serviceName, namespace).value;
      var only := cluster.(podsByLabel := (sel: map<string, string>, ns: string) => Success([pods[0]]));
      only.getService(serviceName, namespace) == cluster.getService(serviceName, namespace) &&
      RedirectService(serviceName, localPort, remotePort, namespace, cluster)
        == RedirectService(serviceName, localPort, remotePort, namespace, only)
  {
  }

  /** `RedirectAddress`: not implemented; it fails the same way for every argument. */
  function RedirectAddress(remoteAddress: string, localPort: int, remotePort: int): (r: Result<PortForward, ForwardError>)
    ensures r.Failure? && Message(r.error) == "redirecting to an arbitrary address havn't been implemented yet"
  {
    Failure(NotImplemented)
  }
}
