/** The Kubernetes v1 API values the translation produces, restricted to the
    fields it sets. A Go pointer field is an Option. */
module Kube {
  import opened Wrappers

  datatype RestartPolicy = RestartPolicyAlways | RestartPolicyOnFailure | RestartPolicyNever

  datatype DNSPolicy = DNSClusterFirst | DNSDefault

  datatype PodSpec = PodSpec(
    restartPolicy: RestartPolicy,
    dnsPolicy: DNSPolicy,
    hostIPC: bool,
    hostNetwork: bool,
    hostPID: bool,
    nodeName: string)

  datatype Capability = Capability(name: string)

  datatype Capabilities = Capabilities(add: seq<Capability>, drop: seq<Capability>)

  datatype SecurityContext = SecurityContext(
    privileged: Option<bool>,
    readOnlyRootFilesystem: Option<bool>,
    capabilities: Option<Capabilities>)

  datatype HostAlias = HostAlias(ip: string, hostnames: seq<string>)

  datatype StorageMedium = StorageMediumDefault | StorageMediumMemory

  datatype VolumeSource =
    | HostPath(path: string)
    | EmptyDir(medium: StorageMedium)

  datatype Volume = Volume(name: string, source: VolumeSource)

  datatype VolumeMount = VolumeMount(name: string, mountPath: string)

  datatype NodeSelectorOperator = NodeSelectorOpIn | NodeSelectorOpNotIn

  datatype NodeSelectorRequirement = NodeSelectorRequirement(
    key: string,
    operator: NodeSelectorOperator,
    values: seq<string>)

  datatype NodeSelectorTerm = NodeSelectorTerm(matchExpressions: seq<NodeSelectorRequirement>)

  datatype NodeSelector = NodeSelector(nodeSelectorTerms: seq<NodeSelectorTerm>)

  datatype PreferredSchedulingTerm = PreferredSchedulingTerm(weight: int, preference: NodeSelectorTerm)

  datatype NodeAffinity = NodeAffinity(
    requiredDuringSchedulingIgnoredDuringExecution: Option<NodeSelector>,
    preferredDuringSchedulingIgnoredDuringExecution: seq<PreferredSchedulingTerm>)

  datatype Affinity = Affinity(nodeAffinity: Option<NodeAffinity>)
}
