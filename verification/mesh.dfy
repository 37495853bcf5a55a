/**
 * The mesh command: argument checks, method dispatch, the version tag and
 * shadow name, the shadow's labels, and which runtime state a run records.
 * Process setup, the broken-port probe, the cluster client and the inbound
 * tunnel are collaborators whose answers are inputs.
 */
module Mesh {
  import opened Wrappers
  import opened Strings
  import opened Kube
  import Collection

  /** The separator between a deployment name and the mesh version in a shadow pod name. */
  const ShadowNameInfix: string := "-kt-"

  datatype MeshError =
    | KubeOptionsFailed(cause: string)
    | MissingDeploymentName
    | MissingExpose
    | ProcessSetupFailed(cause: string)
    | BrokenPort(port: string)
    | KubernetesUnavailable(cause: string)
    | InvalidMeshMethod(requested: string)
    | ClusterFailure(cause: ApiError)
    | InboundFailed(cause: string)

  /**
   * The error text the command reports: a collaborator's error as it is, the
   * missing argument by name, or the offending port or method quoted.
   */
  function Message(e: MeshError): (r: string)
    ensures (e.KubeOptionsFailed? || e.ProcessSetupFailed? || e.KubernetesUnavailable? || e.InboundFailed?) ==> r == e.cause
    ensures e.ClusterFailure? ==> r == e.cause
    ensures e.MissingDeploymentName? ==> IsInfix("deployment", r)
    ensures e.MissingExpose? ==> IsInfix("--expose", r)
    ensures e.BrokenPort? ==> IsInfix(e.port, r) && HasPrefix(r, "no application is running")
    ensures e.InvalidMeshMethod? ==> IsInfix("\"" + e.requested + "\"", r)
  {
    match e
    case KubeOptionsFailed(cause) => cause
    case MissingDeploymentName => Format1("name of ", "deployment", " to mesh is required")
    case MissingExpose => Format1("", "--expose", " is required")
    case ProcessSetupFailed(cause) => cause
    case BrokenPort(port) => Format1("no application is running on port ", port, "")
    case KubernetesUnavailable(cause) => cause
    case InvalidMeshMethod(requested) => Format1("invalid mesh method ", "\"" + requested + "\"", "")
    case ClusterFailure(cause) => cause
    case InboundFailed(cause) => cause
  }

  /** The two method names the dispatch recognises. */
  datatype MeshMethodNames = MeshMethodNames(manual: string, auto: string)

  /** The mesh options a run reads. */
  datatype MeshOptions = MeshOptions(meshMethod: string, expose: string, version: string)

  /** The runtime record cleanup later reads: the shadow's name and its SSH config map. */
  datatype RuntimeOptions = RuntimeOptions(shadow: string, sshcm: string)

  /** The label keys and fixed values of a mesh shadow. */
  datatype MeshLabelNames = MeshLabelNames(controlBy: string, kubernetesTool: string,
                                           ktComponent: string, componentMesh: string,
                                           ktName: string, ktVersion: string)

  /** Go rejects duplicate constant keys in a map literal, so the four marker keys differ. */
  predicate DistinctMarkerKeys(n: MeshLabelNames) {
    && n.controlBy != n.ktComponent && n.controlBy != n.ktName && n.controlBy != n.ktVersion
    && n.ktComponent != n.ktName && n.ktComponent != n.ktVersion && n.ktName != n.ktVersion
  }

  /** What the cluster is asked for: the shadow's name, labels, annotations and environment. */
  datatype ShadowSpec = ShadowSpec(name: string, labels: map<string, string>,
                                   annotations: map<string, string>, envs: map<string, string>)

  /** What the cluster answers for a ready shadow: its pod and its SSH config map. */
  datatype MeshShadow = MeshShadow(podName: string, sshConfigMapName: string)

  /**
   * The cluster client of a mesh run: the Deployment lookup, shadow creation,
   * and the inbound tunnel from the shadow's pod to the exposed local ports
   * (`None` when it comes up, the error text otherwise).
   */
  datatype MeshCluster = MeshCluster(
    deployment: (string, string) -> Result<Deployment, ApiError>,
    getOrCreateShadow: ShadowSpec -> Result<MeshShadow, ApiError>,
    inbound: (string, string) -> Option<string>)

  /**
   * The answers of the steps the command takes before dispatch: combining the
   * kube options (the error text, or `None`), process setup, the broken-port
   * probe ("" when every port answers) and the cluster client.
   */
  datatype MeshEnvironment = MeshEnvironment(
    combineKubeOpts: Option<string>,
    setupProcess: Option<string>,
    brokenPort: string,
    kubernetes: Result<MeshCluster, string>)

  /** A finished run: the runtime record as it stands afterwards, and the outcome. */
  datatype MeshRun = MeshRun(runtime: RuntimeOptions, outcome: Result<Unit, MeshError>)

  /**
   * `getVersion`: the supplied version when there is one, otherwise the
   * random token lower-cased.
   */
  function GetVersion(supplied: string, randomToken: string): (r: string)
    ensures |supplied| != 0 ==> r == supplied
    ensures |supplied| == 0 ==> r == ToLower(randomToken) && |r| == |randomToken|
  {
    if |supplied| != 0 then supplied else ToLower(randomToken)
  }

  /** The shadow pod of a mesh run is named after the Deployment and the version. */
  function ShadowPodName(deploymentName: string, version: string): (r: string)
    ensures HasPrefix(r, deploymentName)
    ensures r[|deploymentName|..] == ShadowNameInfix + version
  {
    deploymentName + ShadowNameInfix + version
  }

  /**
   * Two mesh runs against one Deployment share a shadow pod exactly when they
   * use the same version, so each version is a separately addressable subset.
   */
  lemma ShadowPodNamePerVersion(deploymentName: string, v1: string, v2: string)
    ensures ShadowPodName(deploymentName, v1) == ShadowPodName(deploymentName, v2) <==> v1 == v2
  {
    if ShadowPodName(deploymentName, v1) == ShadowPodName(deploymentName, v2) {
      var n := |deploymentName| + |ShadowNameInfix|;
      assert v1 == ShadowPodName(deploymentName, v1)[n..];
      assert v2 == ShadowPodName(deploymentName, v2)[n..];
    }
  }

  /** The four markers every mesh shadow carries. */
  function MarkerLabels(workload: string, version: string, names: MeshLabelNames): map<string, string> {
    map[names.controlBy := names.kubernetesTool, names.ktComponent := names.componentMesh,
        names.ktName := workload, names.ktVersion := version]
  }

  /**
   * `getMeshLabels`: the four markers, then every selector label of the
   * Deployment copied over them, so a selector label wins on a shared key.
   */
  function GetMeshLabels(workload: string, version: string, app: Option<Deployment>, names: MeshLabelNames): (r: map<string, string>)
    requires DistinctMarkerKeys(names)
    ensures app.None? ==> r.Keys == {names.controlBy, names.ktComponent, names.ktName, names.ktVersion}
    ensures app.Some? ==> r.Keys == {names.controlBy, names.ktComponent, names.ktName, names.ktVersion} + app.value.matchLabels.Keys
    ensures app.Some? ==> forall k :: k in app.value.matchLabels ==> r[k] == app.value.matchLabels[k]
    ensures forall k :: k in r && (app.None? || k !in app.value.matchLabels) ==>
      r[k] == MarkerLabels(workload, version, names)[k]
    ensures app.None? ==>
      && r[names.controlBy] == names.kubernetesTool && r[names.ktComponent] == names.componentMesh
      && r[names.ktName] == workload && r[names.ktVersion] == version
  {
    var markers := MarkerLabels(workload, version, names);
    match app
    case None => markers
    case Some(d) =>
      map k | k in markers.Keys + d.matchLabels.Keys :: if k in d.matchLabels then d.matchLabels[k] else markers[k]
  }

  /**
   * The shadow carries every selector label of the Deployment, so whatever
   * selects the Deployment's pods (its Service) selects the shadow too; and
   * the version marker survives whenever the selector does not use its key.
   */
  lemma MeshShadowJoinsWorkload(workload: string, version: string, d: Deployment, names: MeshLabelNames)
    requires DistinctMarkerKeys(names)
    ensures Collection.IsSubmap(d.matchLabels, GetMeshLabels(workload, version, Some(d), names))
    ensures names.ktVersion !in d.matchLabels ==>
      GetMeshLabels(workload, version, Some(d), names)[names.ktVersion] == version
  {
  }

  /**
   * The argument checks of the command: an empty deployment name is reported
   * first, an empty expose list second.
   */
  function CheckMeshArgs(resourceName: string, expose: string): (r: Option<MeshError>)
    ensures r.None? <==> |resourceName| != 0 && |expose| != 0
    ensures |resourceName| == 0 ==> r == Some(MissingDeploymentName)
    ensures |resourceName| != 0 && |expose| == 0 ==> r == Some(MissingExpose)
  {
    if |resourceName| == 0 then Some(MissingDeploymentName)
    else if |expose| == 0 then Some(MissingExpose)
    else None
  }

  /**
   * `createShadowAndInbound`: the runtime record names the shadow and its SSH
   * config map once the shadow exists, even when the inbound tunnel then fails;
   * a failed creation leaves it untouched.
   */
  function CreateShadowAndInbound(shadowPodName: string, labels: map<string, string>, expose: string,
                                  runtime: RuntimeOptions, cluster: MeshCluster): (r: MeshRun)
    ensures var created := cluster.getOrCreateShadow(ShadowSpec(shadowPodName, labels, map[], map[]));
      && (created.Failure? ==> r == MeshRun(runtime, Failure(ClusterFailure(created.error))))
      && (created.Success? ==> r.runtime == RuntimeOptions(shadowPodName, created.value.sshConfigMapName))
      && (created.Success? ==>
            (r.outcome.Success? <==> cluster.inbound(expose, created.value.podName).None?))
      && (r.outcome.Failure? && created.Success? ==>
            r.outcome.error == InboundFailed(cluster.inbound(expose, created.value.podName).value))
  {
    match cluster.getOrCreateShadow(ShadowSpec(shadowPodName, labels, map[], map[]))
    case Failure(e) => MeshRun(runtime, Failure(ClusterFailure(e)))
    case Success(shadow) =>
      var recorded := RuntimeOptions(shadowPodName, shadow.sshConfigMapName);
      match cluster.inbound(expose, shadow.podName)
      case Some(e) => MeshRun(recorded, Failure(InboundFailed(e)))
      case None => MeshRun(recorded, Success(Unit))
  }

  /**
   * `manualMesh`: looks the Deployment up, derives the version and the shadow
   * name from the Deployment's own name, labels the shadow and creates it.
   */
  function ManualMesh(deploymentName: string, namespace: string, options: MeshOptions, runtime: RuntimeOptions,
                      cluster: MeshCluster, names: MeshLabelNames, randomToken: string): (r: MeshRun)
    requires DistinctMarkerKeys(names)
    ensures cluster.deployment(deploymentName, namespace).Failure? ==>
      r == MeshRun(runtime, Failure(ClusterFailure(cluster.deployment(deploymentName, namespace).error)))
    ensures cluster.deployment(deploymentName, namespace).Success? ==>
      var app := cluster.deployment(deploymentName, namespace).value;
      var version := GetVersion(options.version, randomToken);
      var name := ShadowPodName(app.name, version);
      r == CreateShadowAndInbound(name, GetMeshLabels(name, version, Some(app), names), options.expose, runtime, cluster)
  {
    match cluster.deployment(deploymentName, namespace)
    case Failure(e) => MeshRun(runtime, Failure(ClusterFailure(e)))
    case Success(app) =>
      var version := GetVersion(options.version, randomToken);
      var name := ShadowPodName(app.name, version);
      CreateShadowAndInbound(name, GetMeshLabels(name, version, Some(app), names), options.expose, runtime, cluster)
  }

  /** `autoMesh`: declared but without behaviour; it succeeds and changes nothing. */
  function AutoMesh(runtime: RuntimeOptions): (r: MeshRun)
    ensures r.outcome.Success? && r.runtime == runtime
  {
    MeshRun(runtime, Success(Unit))
  }

  /**
   * `Mesh`: process setup, the broken-port probe and the cluster client must
   * all succeed, in that order; then the method picks manual or auto, and any
   * other method is rejected.
   */
  function Mesh(resourceName: string, namespace: string, options: MeshOptions, runtime: RuntimeOptions,
                env: MeshEnvironment, methods: MeshMethodNames, names: MeshLabelNames, randomToken: string): (r: MeshRun)
    requires DistinctMarkerKeys(names)
    ensures env.setupProcess.Some? ==> r == MeshRun(runtime, Failure(ProcessSetupFailed(env.setupProcess.value)))
    ensures env.setupProcess.None? && env.brokenPort != "" ==> r == MeshRun(runtime, Failure(BrokenPort(env.brokenPort)))
    ensures env.setupProcess.None? && env.brokenPort == "" && env.kubernetes.Failure? ==>
      r == MeshRun(runtime, Failure(KubernetesUnavailable(env.kubernetes.error)))
    ensures env.setupProcess.None? && env.brokenPort == "" && env.kubernetes.Success? ==>
      && (options.meshMethod == methods.manual ==>
            r == ManualMesh(resourceName, namespace, options, runtime, env.kubernetes.value, names, randomToken))
      && (options.meshMethod != methods.manual && options.meshMethod == methods.auto ==> r == AutoMesh(runtime))
      && (options.meshMethod != methods.manual && options.meshMethod != methods.auto ==>
            r == MeshRun(runtime, Failure(InvalidMeshMethod(options.meshMethod))))
  {
    if env.setupProcess.Some? then MeshRun(runtime, Failure(ProcessSetupFailed(env.setupProcess.value)))
    else if env.brokenPort != "" then MeshRun(runtime, Failure(BrokenPort(env.brokenPort)))
    else match env.kubernetes
      case Failure(e) => MeshRun(runtime, Failure(KubernetesUnavailable(e)))
      case Success(cluster) =>
        if options.meshMethod == methods.manual then
          ManualMesh(resourceName, namespace, options, runtime, cluster, names, randomToken)
        else if options.meshMethod == methods.auto then AutoMesh(runtime)
        else MeshRun(runtime, Failure(InvalidMeshMethod(options.meshMethod)))
  }

  /** The command: combining the kube options, the argument checks, then `Mesh` with the first argument as the Deployment name. */
  function MeshCommand(resourceName: string, namespace: string, options: MeshOptions, runtime: RuntimeOptions,
                       env: MeshEnvironment, methods: MeshMethodNames, names: MeshLabelNames, randomToken: string): (r: MeshRun)
    requires DistinctMarkerKeys(names)
    ensures env.combineKubeOpts.Some? ==> r == MeshRun(runtime, Failure(KubeOptionsFailed(env.combineKubeOpts.value)))
    ensures env.combineKubeOpts.None? && CheckMeshArgs(resourceName, options.expose).Some? ==>
      r == MeshRun(runtime, Failure(CheckMeshArgs(resourceName, options.expose).value))
    ensures env.combineKubeOpts.None? && CheckMeshArgs(resourceName, options.expose).None? ==>
      r == Mesh(resourceName, namespace, options, runtime, env, methods, names, randomToken)
  {
    if env.combineKubeOpts.Some? then MeshRun(runtime, Failure(KubeOptionsFailed(env.combineKubeOpts.value)))
    else match CheckMeshArgs(resourceName, options.expose)
      case Some(e) => MeshRun(runtime, Failure(e))
      case None => Mesh(resourceName, namespace, options, runtime, env, methods, names, randomToken)
  }

  /**
   * The runtime record changes only when a manual mesh has created its shadow,
   * and then it names that shadow: every failure before creation, the auto
   * method and an invalid method all leave it as it was.
   */
  lemma RuntimeRecordedOnlyForCreatedShadow(resourceName: string, namespace: string, options: MeshOptions,
                                            runtime: RuntimeOptions, env: MeshEnvironment,
                                            methods: MeshMethodNames, names: MeshLabelNames, randomToken: string)
    requires DistinctMarkerKeys(names)
    ensures var r := MeshCommand(resourceName, namespace, options, runtime, env, methods, names, randomToken);
      r.runtime != runtime ==>
        && env.combineKubeOpts.None?
        && CheckMeshArgs(resourceName, options.expose).None?
        && env.setupProcess.None? && env.brokenPort == "" && env.kubernetes.Success?
        && options.meshMethod == methods.manual
        && env.kubernetes.value.deployment(resourceName, namespace).Success?
        && (var app := env.kubernetes.value.deployment(resourceName, namespace).value;
            var version := GetVersion(options.version, randomToken);
            var name := ShadowPodName(app.name, version);
            && env.kubernetes.value.getOrCreateShadow(ShadowSpec(name, GetMeshLabels(name, version, Some(app), names), map[], map[])).Success?
            && r.runtime.shadow == name)
  {
  }

  /** With valid arguments and a working environment, the auto method succeeds without touching anything. */
  lemma AutoMeshIsNoOp(resourceName: string, namespace: string, options: MeshOptions,
                       runtime: RuntimeOptions, env: MeshEnvironment,
                       methods: MeshMethodNames, names: MeshLabelNames, randomToken: string)
    requires DistinctMarkerKeys(names)
    requires |resourceName| != 0 && |options.expose| != 0
    requires env.combineKubeOpts.None? && env.setupProcess.None? && env.brokenPort == "" && env.kubernetes.Success?
    requires options.meshMethod == methods.auto && methods.auto != methods.manual
    ensures MeshCommand(resourceName, namespace, options, runtime, env, methods, names, randomToken)
         == MeshRun(runtime, Success(Unit))
  {
  }
}
