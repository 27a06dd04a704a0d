/** The go-rancher client values that a deployment-unit sync request carries,
    restricted to the fields the translation reads. */
module Rancher {
  import opened Wrappers

  /** A value of a Rancher label map (Go's interface{}): a string or a bool. */
  datatype LabelValue = Text(text: string) | Flag(flag: bool)

  /** How a label value prints as a Kubernetes annotation or selector string
      (Go's fmt.Sprint). */
  function Render(v: LabelValue): string
  {
    match v
    case Text(s) => s
    case Flag(b) => if b then "true" else "false"
  }

  datatype RestartPolicy = RestartPolicy(name: string)

  datatype Container = Container(
    name: string,
    uuid: string,
    labels: map<string, LabelValue>,
    restartPolicy: Option<RestartPolicy>,
    primaryNetworkId: string,
    ipcMode: string,
    pidMode: string,
    privileged: bool,
    readOnly: bool,
    capAdd: seq<string>,
    capDrop: seq<string>,
    extraHosts: seq<string>,
    dataVolumes: seq<string>,
    tmpfs: map<string, LabelValue>)

  datatype Network = Network(id: string, kind: string)

  datatype DeploymentSyncRequest = DeploymentSyncRequest(
    revision: string,
    deploymentUnitUuid: string,
    containers: seq<Container>,
    networks: seq<Network>,
    nodeName: string)

  /** Go's zero value `client.Container{}`. */
  const EmptyContainer: Container :=
    Container("", "", map[], None, "", "", "", false, false, [], [], [], [], map[])

  /** Go's zero value `client.DeploymentSyncRequest{}`. */
  const EmptyRequest: DeploymentSyncRequest :=
    DeploymentSyncRequest("", "", [], [], "")
}

/** The well-known label keys and values shared by Rancher and the agent. */
module RancherLabels {
  const RevisionLabel: string := "io.rancher.revision"
  const DeploymentUuidLabel: string := "io.rancher.deployment.uuid"
  const ContainerUuidLabel: string := "io.rancher.container.uuid"
  const ServiceLaunchConfig: string := "io.rancher.service.launch.config"
  const ServicePrimaryLaunchConfig: string := "io.rancher.service.primary.launch.config"
  const HostAffinityLabel: string := "io.rancher.scheduler.affinity:host_label"
  const HostAntiAffinityLabel: string := "io.rancher.scheduler.affinity:host_label_ne"
  const HostSoftAffinityLabel: string := "io.rancher.scheduler.affinity:host_label_soft"
  const HostSoftAntiAffinityLabel: string := "io.rancher.scheduler.affinity:host_label_soft_ne"
}
