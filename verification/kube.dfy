/**
 * The cluster objects the commands read, reduced to the fields they use, and the
 * cluster API as a record of uninterpreted query functions: a query's answer is
 * input data, never performed I/O.
 */
module Kube {
  import opened Wrappers

  /**
   * A Service name. Kubernetes only admits DNS labels as Service names, so a
   * name never contains a dot.
   */
  type DnsLabel = s: string | '.' !in s

  /** `intstr.IntOrString`: a port given by number or by container-port name. */
  datatype IntOrString = IntVal(intVal: int) | StrVal(strVal: string)

  /** One entry of a Service's `spec.ports`. */
  datatype ServicePort = ServicePort(port: int, targetPort: IntOrString)

  /** A Service: its name, `spec.clusterIP`, `spec.selector` and `spec.ports`. */
  datatype Service = Service(name: DnsLabel, clusterIp: string, selector: map<string, string>, ports: seq<ServicePort>)

  /** One named port a container declares. */
  datatype ContainerPort = ContainerPort(name: string, containerPort: int)

  datatype Container = Container(ports: seq<ContainerPort>)

  /** A Pod: its name, `status.podIP` (empty until assigned) and containers. */
  datatype Pod = Pod(name: string, podIp: string, containers: seq<Container>)

  /** A Deployment: its name and `spec.selector.matchLabels`. */
  datatype Deployment = Deployment(name: string, matchLabels: map<string, string>)

  /** The text of an error the cluster API reported; it is passed on unchanged. */
  type ApiError = string

  /**
   * The cluster API queries the commands issue, as functions of their arguments:
   * `GetAllServiceInNamespace(namespace)`, `GetPodsByLabel(selector, namespace)`
   * and `GetService(name, namespace)`.
   */
  datatype Cluster = Cluster(
    listServices: string -> Result<seq<Service>, ApiError>,
    podsByLabel: (map<string, string>, string) -> Result<seq<Pod>, ApiError>,
    getService: (string, string) -> Result<Service, ApiError>)
}
