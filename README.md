# netes-agent pod translation, modelled in Dafny

The `sync` package of the Rancher netes-agent turns one Rancher deployment
unit, a `client.DeploymentSyncRequest` carrying containers, networks and a
node name, into the pieces of a Kubernetes `v1.PodSpec`. This project models
that translation as pure functions over datatypes and proves what it
promises:

- the pod labels (`getLabels`);
- the annotations flattened from every container's labels (`getAnnotations`);
- the pod-level fields: restart and DNS policy, the host IPC, PID and network flags, the node (`getPodSpec`);
- a container's security context (`getSecurityContext`);
- host aliases parsed from `"hostname:ip"` entries (`getHostAliases`);
- the pod volumes and per-container mounts from bind specs and tmpfs paths (`getVolumes`, `getVolumeMounts`);
- node affinity from the four scheduling labels (`getAffinity`).

The implementation file of the package is not part of this model. What the
translation must do is fixed by its table tests in `sync/podfromdu_test.go`.
Module `PodFromDuTest` restates every one of those assertions as a lemma.
Where the tests leave behaviour open, the model makes a choice of its own.
Each such choice is listed under "## Left out" as an assumption, stated on its own terms.

Files:

- `wrappers.dfy`: `Option`.
- `strings.dfy`: the string operations the translation needs: first and last index of a separator, cutting at it, and Go's `strings.Split`/`strings.Join`.
- `rancher.dfy`: the Rancher request, container and network values, and the well-known label keys.
- `kube.dfy`: the Kubernetes values produced.
- `pod_meta.dfy`: labels and annotations.
- `pod_spec.dfy`: the pod-level fields.
- `security_context.dfy`: the security context.
- `host_aliases.dfy`: the host aliases.
- `volumes.dfy`: volumes and mounts.
- `affinity.dfy`: node affinity.
- `podfromdu_test.dfy`: the tests, as lemmas.

`utils.Hash`, which names volumes, is a parameter `hash: string -> string` of
the volume functions. Nothing is assumed about it, not even injectivity. The
test lemmas hold for every hash function.

## Model

| member | source | states |
|---|---|---|
| PodMeta.GetLabels | sync/podfromdu_test.go:13-21 | the labels are exactly two entries: the revision label maps to the revision and the deployment-uuid label to the deployment unit's uuid |
| PodMeta.LabelsIdentifyDeployment | sync/podfromdu_test.go:13-21 | two requests get equal labels if and only if they carry the same revision and the same deployment-unit uuid |
| PodMeta.QualifiedLabelsSpec | sync/podfromdu_test.go:34-45 | a non-primary container's label k appears exactly under "<name>/k", with the label's value, and the launch-config marker is not among them |
| PodMeta.ContainerAnnotationsSpec | sync/podfromdu_test.go:23-47 | a container contributes exactly its "<name>/io.rancher.container.uuid" key, which maps to its uuid, plus one key per propagated label: unqualified for the primary container, "<name>/k" otherwise; each label key carries its label's value |
| PodMeta.MergeKeys | sync/podfromdu_test.go:42-47 | a key is in the in-order merge of the containers' contributions if and only if one of them holds it |
| PodMeta.MergeLastWins | sync/podfromdu_test.go:42-47 | in the merge, a key takes its value from the last contribution that holds it |
| PodMeta.GetAnnotations | sync/podfromdu_test.go:23-47 | the pod's annotations hold exactly the keys some container contributes, and each value is the value one of those containers gives the key |
| PodMeta.MergeValueOrigin | sync/podfromdu_test.go:42-47 | every value in the merge is the value of some contribution holding its key |
| PodMeta.AnnotationKeys | sync/podfromdu_test.go:23-47 | an annotation is present if and only if some container contributes it, so nothing else appears in the map |
| PodMeta.AnnotationLastWins | sync/podfromdu_test.go:23-47 | when several containers contribute the same key, the last of them decides its value |
| PodMeta.MarkerNotPropagated | sync/podfromdu_test.go:29-31 | the launch-config marker key never appears among the annotations, whatever the containers |
| PodMeta.UuidAnnotated | sync/podfromdu_test.go:44-46 | every container's "<name>/io.rancher.container.uuid" key is present |
| PodSpecs.ResolveNetwork | sync/podfromdu_test.go:69-81 | the primary network id resolves to none if and only if no network has that id; otherwise it resolves to the first network with that id |
| PodSpecs.AnyContainer | sync/podfromdu_test.go:60-90 | a pod-level flag folded over the containers is set if and only if some container asks for it |
| PodSpecs.GetPodSpec | sync/podfromdu_test.go:50-90 | restart policy Never and DNS policy Default always; HostIPC, HostPID and HostNetwork each hold if and only if some container uses IPC mode "host", PID mode "host", or a primary network of the host-networking kind; the node name is the request's |
| PodSpecs.HostFlagsSurviveMoreContainers | sync/podfromdu_test.go:60-90 | under the assumed OR over all containers, adding containers never clears a host flag that is already set |
| PodSpecs.PodSpecReadsOnlyHostModes | sync/podfromdu_test.go:60-90 | under the assumed OR over all containers, the pod spec depends on the containers only through their IPC mode, PID mode and primary network id |
| PodSpecs.RestartPolicyNotPropagated | sync/podfromdu_test.go:66-84 | replacing any container's own restart policy (e.g. "always") leaves the pod spec unchanged |
| SecurityContexts.ToCapabilities | sync/podfromdu_test.go:108-115 | each capability name becomes one capability, with the same length and in the same order |
| SecurityContexts.CapabilityNamesOfCapabilities | sync/podfromdu_test.go:108-115 | unwrapping the capabilities gives back the names, in order |
| SecurityContexts.GetSecurityContext | sync/podfromdu_test.go:93-116 | privileged and read-only-root-filesystem are both set, to the container's flags, whether true or false; the added and dropped capabilities are the container's lists element for element |
| HostAliases.HostAliasRoundTrip | sync/podfromdu_test.go:118-131 | an entry parses to the alias (ip, [hostname]) if and only if the entry is "hostname:ip" and the hostname holds no ':' |
| HostAliases.AliasesOf | sync/podfromdu_test.go:118-131 | never more aliases than entries; when every entry holds a ':', exactly one alias per entry, in order, each the entry's parse |
| HostAliases.AliasesOfSpec | sync/podfromdu_test.go:118-131 | an alias is produced if and only if some entry parses to it |
| HostAliases.GetHostAliases | sync/podfromdu_test.go:118-131 | every alias has exactly one hostname, free of ':', and formats back to one of the container's extra-hosts entries |
| Volumes.ParseBind | sync/podfromdu_test.go:137-138 | a spec declares nothing if and only if it has no ':'; otherwise it declares a bind whose host path, ':' and container path give back the spec |
| Volumes.BindDeclsSpec | sync/podfromdu_test.go:133-151 | a bind is declared if and only if one of the container's data-volume specs parses to it |
| Volumes.EnumerateSpec | sync/podfromdu_test.go:155-157 | ranging over the tmpfs map visits every path exactly once and nothing else |
| Volumes.ContainerDeclsSpec | sync/podfromdu_test.go:133-207 | a container's declarations are exactly its parsed binds and its tmpfs paths |
| Volumes.MountOf | sync/podfromdu_test.go:181-201 | a mount carries the same name as the volume of the same declaration, and mounts at the container path of a bind or at the tmpfs path itself |
| Volumes.GetVolumeMounts | sync/podfromdu_test.go:181-207 | a mount is in a container's mounts if and only if the container declares a bind "H:C", giving name hash(H) at C, or a tmpfs path P, giving name hash(P) at P |
| Volumes.ContainerVolumesSpec | sync/podfromdu_test.go:133-169 | a container needs a volume if and only if it declares a bind H, giving a host-path volume named hash(H), or a tmpfs path P, giving an in-memory empty dir named hash(P) |
| Volumes.AllVolumesSpec | sync/podfromdu_test.go:133-179 | a volume is among all the containers' volumes if and only if some container needs it |
| Volumes.DedupByName | sync/podfromdu_test.go:133-179 | removing duplicates keeps only volumes of the input and every name of the input, and leaves no two volumes with the same name |
| Volumes.GetVolumes | sync/podfromdu_test.go:133-179 | no two pod volumes share a name |
| Volumes.MountsMatchVolumes | sync/podfromdu_test.go:133-207 | a name belongs to a pod volume if and only if some container has a mount of that name |
| Volumes.SharedHostPathOneVolume | sync/podfromdu_test.go:133-151 | under the assumed deduplication by name, a bound host path yields exactly one pod volume of its name, however many containers bind it |
| Volumes.AnonymousVolumeIgnored | sync/podfromdu_test.go:170-206 | adding a spec without ':' to a container leaves the multiset of its mounts and the set of the pod's volume names unchanged |
| Affinities.ParseRequirement | sync/podfromdu_test.go:212-247 | an entry gives no requirement if and only if it has no '='; otherwise it gives a one-value requirement with the given operator, a key free of '=', and key "=" value reproducing the entry |
| Affinities.EntryRequirementsSpec | sync/podfromdu_test.go:212-247 | a requirement is produced if and only if some entry of the label parses to it |
| Affinities.EntryRequirementsOrderIrrelevant | sync/podfromdu_test.go:216-247 | permuted entries give the same requirements, each the same number of times |
| Affinities.TermSpec | sync/podfromdu_test.go:209-248 | a term holds a requirement if and only if it parses, with In, from an affinity entry or, with NotIn, from an anti-affinity entry; it holds no more requirements than there are entries |
| Affinities.GetAffinity | sync/podfromdu_test.go:209-289 | no affinity if and only if none of the four labels is present; otherwise a node affinity whose required term is present if and only if a hard label is, combining the hard In and NotIn requirements, and which has exactly one preferred term, combining the soft ones, if and only if a soft label is present |
| Affinities.SelectorRoundTrip | sync/podfromdu_test.go:212-247 | a label written from any list of well-formed key/value pairs, the empty list included, parses to one single-value requirement per pair, in order |
| Affinities.SelectorOrderIrrelevant | sync/podfromdu_test.go:216-247 | the same pairs written in any order give the same multiset of requirements |
| Strings.SplitOfJoin | sync/podfromdu_test.go:212-213 | splitting at ',' undoes joining with ',' pieces that hold no ',' |
| Strings.CutOfJoin | sync/podfromdu_test.go:128 | cutting at the first separator gives back the two halves when the first half holds no separator |
| PodFromDuTest.TestGetLabels | sync/podfromdu_test.go:13-21 | the labels of revision "revision" and the zero uuid are exactly those two entries |
| PodFromDuTest.TestGetAnnotations | sync/podfromdu_test.go:23-47 | the primary c1 with label a=b and the secondary c2 with label c=d give exactly "a", "c1/io.rancher.container.uuid", "c2/c" and "c2/io.rancher.container.uuid" |
| PodFromDuTest.TestGetPodSpecEmptyContainer | sync/podfromdu_test.go:50-58 | one empty container gives Never, Default, no host flags and an empty node name |
| PodFromDuTest.TestGetPodSpecHostModes | sync/podfromdu_test.go:60-90 | host IPC and PID modes plus a host-networking primary network set all three flags, the node is "node1", and the policy stays Never despite "always" |
| PodFromDuTest.TestSecurityContext | sync/podfromdu_test.go:93-116 | both flags are Some(true) and the capabilities are capadd1, capadd2 and capdrop1, capdrop2, in order |
| PodFromDuTest.TestGetHostAliases | sync/podfromdu_test.go:118-131 | "hostname:0.0.0.0" gives exactly the alias with IP "0.0.0.0" and hostnames ["hostname"] |
| PodFromDuTest.TestGetVolumesBind | sync/podfromdu_test.go:134-151 | "/host/path:/container/path" gives exactly the host-path volume named hash("/host/path") |
| PodFromDuTest.TestGetVolumesTmpfs | sync/podfromdu_test.go:152-169 | tmpfs "/dir" gives exactly the in-memory empty dir named hash("/dir") |
| PodFromDuTest.TestGetVolumesAnonymous | sync/podfromdu_test.go:170-178 | "/anonymous/volume" gives no volume |
| PodFromDuTest.TestGetVolumeMountsBind | sync/podfromdu_test.go:182-191 | the bind gives exactly the mount named hash("/host/path") at "/container/path" |
| PodFromDuTest.TestGetVolumeMountsTmpfs | sync/podfromdu_test.go:192-201 | tmpfs "/dir" gives exactly the mount named hash("/dir") at "/dir" |
| PodFromDuTest.TestGetVolumeMountsAnonymous | sync/podfromdu_test.go:202-206 | "/anonymous/volume" gives no mount |
| PodFromDuTest.TermOfTwoAndTwo | sync/podfromdu_test.go:209-248 | an affinity label of two well-formed pairs and an anti-affinity label of two give their two In requirements and then their two NotIn requirements |
| PodFromDuTest.TestGetAffinityRequired | sync/podfromdu_test.go:209-248 | the hard labels give a required first term of length 4 that contains In key1/val1, In key2/val2, NotIn key3/val3 and NotIn key4/val4 |
| PodFromDuTest.TestGetAffinityPreferred | sync/podfromdu_test.go:250-288 | the soft labels give a first preferred term whose preference has the same four requirements and length 4 |
| PodFromDuTest.AffinityEntryOrderExample | sync/podfromdu_test.go:212 | "key1=val1,key2=val2" and "key2=val2,key1=val1" give the same requirements |

## Left out

- The event wiring of `manager/listen.go` is not modelled: subscription to the Rancher event stream, handler registration, the worker pool and logging. It is network I/O and concurrency with no stated behaviour.
- The rest of the pod assembly is not modelled: the containers themselves, logging, and the cluster API calls that apply or delete pods.
- The implementation file `sync/podfromdu.go` is not part of this model. Every behaviour the tests do not exercise is an assumption, listed below.
- `utils.Hash` is a parameter. Its digest is not modelled, and it is not assumed to be injective.
- Only the fields of the go-rancher and Kubernetes client types that the translation reads or writes are modelled.
- RancherLabels: only "io.rancher.container.uuid" is fixed by the tests. The other label keys and the primary marker value are assumed to be Rancher's usual ones. Two proofs besides the test restatements depend on those values:
  - PodMeta.GetLabels: its two-entry count needs RevisionLabel and DeploymentUuidLabel to differ.
  - PodMeta.MarkerNotPropagated: it needs ServiceLaunchConfig to hold no '/', so that no qualified "<name>/k" key can equal it.
- PodSpecs.HostNetworkingKind: the value "dockerHost" is assumed. The tests only use the constant by name.
- PodSpecs.GetPodSpec: assumed: each host flag is an OR over all containers, and the primary launch-config marker plays no part. The tests use a single container. A network id matching several networks resolving to the first of them is also an assumption.
- PodSpecs.PodSpecReadsOnlyHostModes: holds only under the assumed OR over all containers. The second pod-spec test marks its only container as the primary launch config (sync/podfromdu_test.go:63-65), which would also fit pod-level fields being read from the primary container alone; the model ignores the marker.
- PodSpecs.HostFlagsSurviveMoreContainers: holds only under the same assumed OR over all containers. If the flags were read from the primary container alone, appending a container could change them.
- PodMeta.ContainerAnnotations: three behaviours are assumptions:
  - the launch-config marker is dropped for every container, not only the primary;
  - a bool label renders as "true"/"false";
  - the uuid entry wins when a label lands on the same key.
- PodMeta.AnnotationLastWins: assumed: when containers collide on an annotation key, the last one wins. The tests do not exercise it.
- Volumes.GetVolumes: tmpfs paths come from a Go map, whose iteration order is unspecified and may differ between two calls. `Enumerate` picks one order per key set, chosen by the model and not by Go, so the volume and mount functions are ghost. Their contracts never depend on that order: they are stated as membership, as multisets of mounts or as sets of volume names, not as sequences. The only sequence equalities are the example lemmas, whose containers have at most one tmpfs path.
- Volumes.DedupByName: cross-container deduplication of volumes by name is an assumption; the tests use one container. The contract does not state which of several same-named volumes is kept.
- Volumes.ParseBind: cutting at the last ':' is an assumption; the tests use only one ':'.
- HostAliases.ParseHostAlias: cutting at the first ':' and dropping entries without ':' are assumptions.
- Affinities.EntryRequirements: skipping entries without '=' is an assumption.
- Affinities.ParseRequirement: cutting an entry at its first '=' is an assumption, so "k=v=w" gives key "k" and value "v=w" rather than being skipped. The tests use one '=' per entry.
- Affinities.SelectorEntries: assumed: a bool-valued scheduling label is rendered as "true" or "false" and then parsed like text, so it yields no requirement. The tests use text labels only.
- SecurityContexts.GetSecurityContext: always returns Some capabilities, even when both lists are empty. That is an assumption; the test uses non-empty lists.
- Affinities.PreferredWeight: the weight 100 of the preferred term is an assumption. The tests never read it.
- Affinities.GetAffinity: returning no affinity when none of the four labels is present is an assumption. The model also keeps a fixed order inside a term: affinity entries first, then anti-affinity. The tests check only length and membership, and the order-independence lemmas state only multiset equality.
