# kt-connect command core in Dafny

A model of the decision logic inside three kt-connect commands and one
helper package, with proofs about it.

- `connect`: picks a DNS strategy from the mode string. It builds the host
  table that maps cluster Service names to addresses, and decides when a
  local-dns watch event rebuilds that table. It also names and configures
  the connect shadow workload.
- `mesh`: checks arguments and dispatches on the mesh method. It derives the
  version tag and the shadow pod name, labels the shadow with the
  Deployment's selector plus the mesh markers, and records the runtime state
  cleanup reads.
- `forward`: resolves a Service port to a port on the first pod of the
  Service.
- `util`: the collection helpers `Contains`, `MapContains`, `MapPut` and
  `MergeMap`.

The cluster API, the DNS resolver override, the tunnel, process setup, the
clock and the random token are not performed.

- Cluster queries are functions held in a record (`Kube.Cluster`,
  `Mesh.MeshCluster`), so their answers are inputs.
- Resolver requests are returned as a list of `Connect.DnsEffect` values, in
  the order the command issues them.
- A forward is returned as the `Forward.PortForward` to set up.
- The current time, the random suffix, the Windows flag and the DNS ports
  are parameters.

Files:

| file | module | contents |
|---|---|---|
| wrappers.dfy | `Wrappers` | `Option`, `Result`, `Unit` |
| strings.dfy | `Strings` | the parts of Go's `strings` and `%d` the code uses: `HasPrefix`, `Split`/`Join`, ASCII `ToLower`, `IntToString` |
| kube.dfy | `Kube` | Service, Pod, Deployment and the cluster query record. Service names are DNS labels, so they never contain a dot. |
| collection.dfy | `Collection` | `util/collection.go` |
| connect_hosts.dfy | `ConnectHosts` | `getServiceHosts`, `dumpToHost` and the host-name scheme |
| connect.dfy | `Connect` | `setupDns`, the watch callbacks, `dumpCurrentNamespaceToHost`, `getEnvs`, `getLabels`, `getOrCreateShadow` |
| mesh.dfy | `Mesh` | `mesh.go` |
| forward.dfy | `Forward` | `forward/common.go` |

### The host table

`dumpToHost` writes up to three names for every Service found in a searched
namespace:

- `svc`, only for the current namespace
- `svc.ns`
- `svc.ns.svc.<cluster domain>`

Go ranges over the Service table in an unspecified order. The model proves
that within one namespace the three kinds of name never collide, so the
order does not matter (`ConnectHosts.NamespaceEntriesOrderFree`). A
namespace adds exactly 3 names per Service when it is the current one and 2
otherwise. Across namespaces, a later namespace in the list overwrites an
earlier one. Two distinct dot-free namespaces never write the same name, so
with Kubernetes namespace names no overwrite happens.

A headless Service (cluster IP empty or `None`) takes the address of its
first pod that has one, and that pod is recorded. If its pods exist but
none has an address yet, the code still writes the Service with the address
of the last pod scanned, which is empty. The model keeps that.

### A failed rebuild clears the table

`getServiceHosts` drops the Service-listing error and returns an empty
table (`pkg/kt/command/connect/common.go:102-103`, `125`). The watch
callbacks store whatever it returns (lines 39, 43 and 49). So a rebuild
after a failed listing dumps an empty table and forgets every
headless-backing pod. The model follows the code
(`Connect.RebuildAfterListingFailure`).

## Model

| member | source | states |
|---|---|---|
| Collection.SliceContains | pkg/kt/util/collection.go:9-14 | the slice scan is true exactly when some element equals the object |
| Collection.Contains | pkg/kt/util/collection.go:6-21 | true iff the object is an element of a slice or array, or a key of a map; false for any other kind of target |
| Collection.MapContains | pkg/kt/util/collection.go:23-37 | the nested scan returns true exactly when every pair of the subset occurs with the same value in the full set |
| Collection.MapContainsEmptyAndReflexive | pkg/kt/util/collection.go:23-37 | the empty map is contained in every map, and every map contains itself |
| Collection.MapContainsTransitive | pkg/kt/util/collection.go:23-37 | containment is transitive |
| Collection.MapPut | pkg/kt/util/collection.go:39-44 | on a non-nil map, sets the key to the value and leaves every other key as it was; on a nil map, the caller sees no change |
| Collection.MergeMap | pkg/kt/util/collection.go:46-55 | the copy holds the keys of both maps; the second map's values win, and the first map's values survive on keys the second lacks |
| Strings.Split | pkg/kt/command/connect/common.go:74 | at least one piece, no piece holds the separator, and joining the pieces gives back the input |
| Strings.SplitJoin | pkg/kt/command/connect/common.go:72-76 | splitting a comma-joined list of comma-free names gives back that list |
| Strings.ToLower | pkg/kt/command/mesh.go:163 | same length, each character lower-cased |
| ConnectHosts.FirstPodWithIp | pkg/kt/command/connect/common.go:111-117 | the pod scan stops at the first pod with an address; when none has one, every pod's address is empty |
| ConnectHosts.ResolveService | pkg/kt/command/connect/common.go:104-122 | a Service with a cluster IP resolves to it; a headless one is skipped when the pod query fails or returns nothing, and otherwise takes the first pod address and records that pod, or the last pod's empty address when no pod has one |
| ConnectHosts.HostsOf | pkg/kt/command/connect/common.go:104-123 | the Service loop over a listing: each resolved Service writes its name, a later one of the same name overwriting, and appends its recorded pod; the list gains at most one pod per Service. `HostsOfKeys`, `HostsOfLastWins` and `HostsOfHeadlessPods` characterise it |
| ConnectHosts.ServiceHostsIn | pkg/kt/command/connect/common.go:99-126 | `getServiceHosts`: a failed listing gives an empty table and no pods; otherwise the loop over the listing, with at most one pod per listed Service. `GetServiceHosts` shows the Go loops compute it |
| ConnectHosts.HostsOfKeys | pkg/kt/command/connect/common.go:99-126 | a name is in the table exactly when some Service of that name resolved |
| ConnectHosts.HostsOfLastWins | pkg/kt/command/connect/common.go:104-123 | a name carries the address of the last Service of that name that resolved |
| ConnectHosts.HostsOfCollects | pkg/kt/command/connect/common.go:104-117 | the headless list is what each Service records, concatenated in Service order |
| ConnectHosts.HostsOfHeadlessPods | pkg/kt/command/connect/common.go:106-117 | the headless list holds exactly the pods headless Services resolved to, at most one per Service |
| ConnectHosts.GetServiceHosts | pkg/kt/command/connect/common.go:99-126 | the loops compute the recursive scan; a failed listing gives an empty table and no pods |
| ConnectHosts.ScanPods | pkg/kt/command/connect/common.go:111-117 | the pod loop takes the address of the first pod that has one and records that pod; when none has one it ends on the last pod's empty address and records nothing |
| ConnectHosts.DotJoinInjective | pkg/kt/command/connect/common.go:86-87 | `a.b` determines a dot-free `a` and the rest `b` |
| ConnectHosts.KeysHaveDots | pkg/kt/command/connect/common.go:83-87 | qualified and fully-qualified names contain a dot, so neither is a bare Service name |
| ConnectHosts.EntryKeyUnique | pkg/kt/command/connect/common.go:82-88 | within one namespace, each dumped name belongs to exactly one Service |
| ConnectHosts.NamespaceEntries | pkg/kt/command/connect/common.go:82-88 | the names one namespace writes, visiting its Services in a given order; every address written is the address of a found Service. `NamespaceEntriesAt` gives the names and their addresses, and `NamespaceEntriesOrderFree` shows the order does not matter |
| ConnectHosts.NotSameEntry | pkg/kt/command/connect/common.go:79-88 | two distinct dot-free namespaces never dump the same name |
| ConnectHosts.NamespaceEntriesAt | pkg/kt/command/connect/common.go:82-88 | one namespace's entries hold a name exactly when it is a name of a visited Service, and it carries that Service's address |
| ConnectHosts.NamespaceHosts | pkg/kt/command/connect/common.go:79-88 | one namespace's part of the dump: nothing when the listing fails, and only addresses of Services found there. `NamespaceHostsAt` gives it exactly |
| ConnectHosts.ResolvedNames | pkg/kt/command/connect/common.go:99-126 | lists exactly the Service names the scan puts in the table |
| ConnectHosts.NamespaceHostsAt | pkg/kt/command/connect/common.go:79-88 | a namespace's part of the dump holds exactly the names of the Services found there, with their addresses |
| ConnectHosts.NamespaceEntriesOrderFree | pkg/kt/command/connect/common.go:82-88 | any visiting order of the same Services gives the same entries |
| ConnectHosts.NamespaceEntriesSize | pkg/kt/command/connect/common.go:82-88 | a namespace adds 3 names per Service when it is the current one and 2 otherwise |
| ConnectHosts.NamespacesToDump | pkg/kt/command/connect/common.go:71-77 | with no list, only the current namespace; otherwise exactly the comma-separated list, in order |
| ConnectHosts.HostsTable | pkg/kt/command/connect/common.go:78-89 | the table over the searched namespaces: every name the last namespace writes carries that namespace's address, so later namespaces overwrite earlier ones. `HostsTableKeys`, `HostsTableValueAt` and `HostsTableAddresses` characterise it |
| ConnectHosts.HostsTableAddresses | pkg/kt/command/connect/common.go:78-89 | every address in the table is the address of a Service found in one of the searched namespaces |
| ConnectHosts.DumpToHost | pkg/kt/command/connect/common.go:70-91 | `dumpToHost`: the table over `NamespacesToDump`; with no namespace list it is exactly the current namespace's part. `HostsTableKeys`, `HostsTableValueAt`, `HostsTableAddresses` and `BareNamesOnlyFromCurrent` characterise it |
| ConnectHosts.HostsTableKeys | pkg/kt/command/connect/common.go:70-90 | the dump holds a name exactly when it is a name of some Service found in some searched namespace |
| ConnectHosts.HostsTableValueAt | pkg/kt/command/connect/common.go:78-89 | with dot-free namespaces, each such name carries its Service's address |
| ConnectHosts.DumpedServiceNames | pkg/kt/command/connect/common.go:82-88 | a found Service is dumped as `svc.ns` and `svc.ns.svc.<domain>`, and as bare `svc` when `ns` is the current namespace |
| ConnectHosts.BareNamesOnlyFromCurrent | pkg/kt/command/connect/common.go:83-85 | a dot-free name in the dump comes from a Service of the current namespace, and only when that namespace is searched |
| Connect.ParseDnsMode | pkg/kt/command/connect/common.go:18-66 | a `hosts` prefix selects the hosts dump, whose namespace list is the text after a `:` directly after the prefix; `pod-dns` and `local-dns` must match exactly; anything else is an invalid mode |
| Connect.Message | pkg/kt/command/connect/common.go:64-65 | a shadow error is reported as it is; the invalid-mode text starts `invalid dns mode: '` and contains the rejected mode. `InvalidDnsModeMessage` shows it names the three valid modes too |
| Connect.InvalidDnsModeMessage | pkg/kt/command/connect/common.go:63-66 | the error repeats the rejected mode and names all three valid modes |
| Connect.DnsModeExamples | pkg/kt/command/connect/common.go:18-23 | `hosts:a,b`, `hosts`, `hosts:` and a typo parse as the grammar says |
| Connect.NamespaceListExample | pkg/kt/command/connect/common.go:70-77 | `team-a,team-b` searches those two namespaces |
| Connect.DumpCurrentNamespaceToHost | pkg/kt/command/connect/common.go:93-97 | dumps only bare, dot-free names of the current namespace, and returns the headless-backing pods |
| Connect.SetupDns | pkg/kt/command/connect/common.go:16-68 | the hosts mode dumps the searched namespaces; pod-dns only redirects to the shadow; local-dns dumps bare names, starts the local resolver on the platform's port, redirects to it, and starts the watches |
| Connect.SetupDnsEffects | pkg/kt/command/connect/common.go:56-62 | only pod-dns writes no table, only local-dns starts a resolver and watches, and the resolver starts before the redirect |
| Connect.LocalDnsPort | pkg/kt/command/connect/common.go:52-55 | the standard DNS port on Windows, the alternative one elsewhere |
| Connect.OnWatchEvent | pkg/kt/command/connect/common.go:35-51 | a rebuild replaces the headless list and dumps the current bare table; without one nothing changes |
| Connect.ShouldRebuild | pkg/kt/command/connect/common.go:36-50 | the callbacks' guards (lines 38 and 46): a Service add only when at least 4 whole seconds have passed since setup, the other Service callback always, a pod event exactly when the pod is in the headless list. `ServiceAddDebounce` and `PodEventRebuildsTrackedPods` restate the two conditional cases as lemmas |
| Connect.ServiceAddDebounce | pkg/kt/command/connect/common.go:36-41 | a Service add rebuilds exactly when more than 3 seconds have passed since setup, and at every later time too |
| Connect.PodEventRebuildsTrackedPods | pkg/kt/command/connect/common.go:45-50 | a pod event rebuilds exactly when the pod is a tracked headless-backing pod |
| Connect.RebuildIsWholesale | pkg/kt/command/connect/common.go:42-44 | a rebuild ignores the state it replaces, so repeating it on the same cluster changes nothing |
| Connect.RebuildAfterListingFailure | pkg/kt/command/connect/common.go:99-103 | when the listing fails, a rebuild dumps an empty table and clears the headless list |
| Connect.GetEnvs | pkg/kt/command/connect/common.go:142-160 | local domains only when there are some; `tcp` exactly for local-dns, else `udp`; `debug` exactly in debug mode, else `info` |
| Connect.GetLabels | pkg/kt/command/connect/common.go:162-168 | exactly the provenance marker and the connect-shadow role |
| Connect.ShadowName | pkg/kt/command/connect/common.go:128-132 | the fixed daemon name when shared, otherwise the prefix followed by the lower-cased random suffix |
| Connect.ShadowNamesSeparateSessions | pkg/kt/command/connect/common.go:128-132 | exclusive sessions whose suffixes differ, ignoring case, get distinct shadows; a 5-character suffix never yields the shared name |
| Connect.GetOrCreateShadow | pkg/kt/command/connect/common.go:128-140 | asks for the chosen name with the connect labels, no annotations and the connect environment, and passes on the answer or its error |
| Mesh.CheckMeshArgs | pkg/kt/command/mesh.go:40-46 | an empty deployment name is reported first, an empty expose list second; both present means no error |
| Mesh.Message | pkg/kt/command/mesh.go:41-75 | collaborator errors are reported as they are; the missing-argument texts name the deployment and `--expose`; the broken-port text contains the port and the invalid-method text the quoted method |
| Mesh.MeshCommand | pkg/kt/command/mesh.go:34-48 | a failure to combine the kube options is reported before anything else; then an argument error stops the command with the runtime untouched; otherwise it runs `Mesh` |
| Mesh.Mesh | pkg/kt/command/mesh.go:54-80 | process setup, the broken-port probe and the client fail in that order; then manual runs the manual mesh, auto the no-op, and any other method is invalid |
| Mesh.ManualMesh | pkg/kt/command/mesh.go:95-108 | a failed Deployment lookup is passed on; otherwise the shadow is named after the Deployment and the version, labelled, and created |
| Mesh.AutoMesh | pkg/kt/command/mesh.go:116-119 | succeeds and changes nothing |
| Mesh.AutoMeshIsNoOp | pkg/kt/command/mesh.go:70-79 | with valid arguments and environment, the auto method succeeds with the runtime untouched |
| Mesh.CreateShadowAndInbound | pkg/kt/command/mesh.go:121-142 | a failed creation leaves the runtime record as it was; once the shadow exists its name and config map are recorded, even when the inbound tunnel then fails |
| Mesh.RuntimeRecordedOnlyForCreatedShadow | pkg/kt/command/mesh.go:126-133 | the runtime record changes only on a manual mesh whose shadow was created, and then names that shadow |
| Mesh.GetMeshLabels | pkg/kt/command/mesh.go:144-157 | with no Deployment, exactly the four markers; otherwise the markers plus every selector label, the selector winning on a shared key |
| Mesh.MeshShadowJoinsWorkload | pkg/kt/command/mesh.go:151-156 | the shadow carries every selector label of the Deployment, and keeps the version marker unless the selector uses its key |
| Mesh.GetVersion | pkg/kt/command/mesh.go:159-164 | the supplied version when non-empty, otherwise the random token lower-cased, of the token's length |
| Mesh.ShadowPodName | pkg/kt/command/mesh.go:103 | the Deployment name, then `-kt-`, then the version |
| Mesh.ShadowPodNamePerVersion | pkg/kt/command/mesh.go:101-103 | two runs on one Deployment share a shadow pod exactly when their versions are equal |
| Forward.FindTargetPort | pkg/kt/command/forward/common.go:16-21 | none when no Service port matches; otherwise the target of the last matching entry |
| Forward.ScanTargetPort | pkg/kt/command/forward/common.go:16-21 | the overwriting loop picks the last matching entry |
| Forward.NamedPortIn | pkg/kt/command/forward/common.go:38-43 | the first port of a container with the name, or none when no port has it |
| Forward.FindNamedPort | pkg/kt/command/forward/common.go:36-44 | the named port of the first container that declares the name; none when no container does |
| Forward.ScanNamedPort | pkg/kt/command/forward/common.go:35-45 | the nested scan with its labelled break finds that port, or leaves the -1 sentinel |
| Forward.PodPort | pkg/kt/command/forward/common.go:32-45 | a numeric target is used as it is; a named one gives the port `FindNamedPort` finds in the pod, or the -1 sentinel when none has the name |
| Forward.RedirectService | pkg/kt/command/forward/common.go:11-50 | failures in order: Service lookup, port not available, pod lookup, no pod, and port not fit when the first pod yields no port; otherwise the local port is forwarded to the first pod, on the numeric target or the named container port |
| Forward.PortCheckPrecedesPodLookup | pkg/kt/command/forward/common.go:22-25 | a port the Service lacks is reported whatever the pod query answers |
| Forward.FirstPodDecides | pkg/kt/command/forward/common.go:29-49 | only the first pod matters, and a numeric target port is used as it is |
| Forward.RedirectAddress | pkg/kt/command/forward/common.go:52-54 | always fails with the not-implemented error |
| Forward.Message | pkg/kt/command/forward/common.go:23-53 | a cluster error is reported as it is; the two port errors contain the port in decimal, the Service name and which check failed; the no-pod error contains the Service name |

## Left out

- Resolver, tunnel and cluster side effects: `dns.DumpHosts`, `SetNameServer`, `SetupLocalDns`, `GetLocalDomains`, `SetupPortForwardToLocal` and `Inbound`. These are foreign calls. They appear as returned requests, as the answers of parameter functions, or, for the local domains, as a parameter.
- Connect.SetupDns: a failing resolver request in the code ends `setupDns` before the later requests; the model lists every request and does not model their failures.
- Forward.RedirectService: the error of the port-forward setup itself is not modelled; success is the forward to set up.
- Goroutines, the watch loops, the 5-second sleep before a pod-triggered rebuild, `process.Interrupt`, `os.Exit` and the signal wait at the end of `Mesh`. These are concurrency and process control; a watch callback is modelled as one call of `Connect.OnWatchEvent` at a given time.
- `util.RandomString`, `util.IsWindows`, `time.Now` and the `common`/`util` constants (label keys, mesh method names, DNS ports). These become parameters. The mode strings, the loopback address and the shadow name prefixes are written out.
- Collection.Contains: the target's kind is given by the `Target` datatype rather than found by reflection, and the element type is fixed, so comparisons between values of different dynamic types and the panic on a nil target are not modelled.
- Strings.ToLower: lower-cases ASCII letters only; Go's Unicode case mapping is not modelled.
- ConnectHosts.HostsTableValueAt: proved only when no searched namespace name contains a dot, which Kubernetes guarantees. With a dotted name, one namespace's qualified name could equal another namespace's fully-qualified one.
- Go's map iteration order is modelled in two ways. `Collection.MapContains` and `Collection.MergeMap` pick each next key with `:|`, so their contracts hold for any iteration order. `dumpToHost` instead visits a namespace's Services in listing order; `ConnectHosts.NamespaceEntriesOrderFree` shows any other order of the same Services gives the same entries.
- The environment variable names of `getEnvs` are the three cases of `Connect.EnvKey` rather than their string values.
- `pkg/kt/command/config/show.go` and `pkg/kt/channel/types.go` are not part of this model.
