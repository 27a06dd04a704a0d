/** The pod-level fields of the pod spec: fixed restart and DNS policies, the
    host IPC/PID/network flags gathered over all containers, and the node. */
module PodSpecs {
  import opened Wrappers
  import opened Rancher
  import opened Kube

  /** The network kind Rancher gives to host networking. */
  const HostNetworkingKind: string := "dockerHost"

  /** The IPC or PID mode that shares the host's namespace. */
  const HostMode: string := "host"

  /** `networks[i]` is the first network with identifier `id`. */
  predicate FirstWithId(networks: seq<Network>, i: int, id: string)
  {
    0 <= i < |networks| && networks[i].id == id && forall j :: 0 <= j < i ==> networks[j].id != id
  }

  /** The first network of the request with the given identifier. */
  function ResolveNetwork(networks: seq<Network>, id: string): (r: Option<Network>)
    ensures r.None? <==> forall n :: n in networks ==> n.id != id
    ensures r.Some? ==> exists i :: FirstWithId(networks, i, id) && networks[i] == r.value
  {
    if networks == [] then None
    else if networks[0].id == id then
      assert FirstWithId(networks, 0, id);
      Some(networks[0])
    else
      var r := ResolveNetwork(networks[1..], id);
      assert r.Some? ==> exists i :: FirstWithId(networks, i, id) && networks[i] == r.value by {
        if r.Some? {
          var i :| FirstWithId(networks[1..], i, id) && networks[1..][i] == r.value;
          forall j | 0 <= j < i + 1 ensures networks[j].id != id {
            if j > 0 { assert networks[j] == networks[1..][j - 1]; }
          }
          assert FirstWithId(networks, i + 1, id);
        }
      }
      r
  }

  predicate UsesHostIpc(c: Container) { c.ipcMode == HostMode }

  predicate UsesHostPid(c: Container) { c.pidMode == HostMode }

  /** The container's primary network resolves to a host-networking network. */
  predicate UsesHostNetwork(networks: seq<Network>, c: Container)
  {
    match ResolveNetwork(networks, c.primaryNetworkId)
    case None => false
    case Some(n) => n.kind == HostNetworkingKind
  }

  /** A pod-level flag folded over the containers in order: any container
      that asks for it sets it, and none clears it. */
  function AnyContainer(cs: seq<Container>, asks: Container -> bool): (r: bool)
    ensures r <==> exists i :: 0 <= i < |cs| && asks(cs[i])
  {
    if cs == [] then false
    else
      var earlier := AnyContainer(cs[..|cs| - 1], asks);
      assert forall i :: 0 <= i < |cs| - 1 ==> cs[..|cs| - 1][i] == cs[i];
      earlier || asks(cs[|cs| - 1])
  }

  function GetPodSpec(request: DeploymentSyncRequest): (r: PodSpec)
    ensures r.restartPolicy == RestartPolicyNever && r.dnsPolicy == DNSDefault
    ensures r.hostIPC <==> exists c :: c in request.containers && UsesHostIpc(c)
    ensures r.hostPID <==> exists c :: c in request.containers && UsesHostPid(c)
    ensures r.hostNetwork <==> exists c :: c in request.containers && UsesHostNetwork(request.networks, c)
    ensures r.nodeName == request.nodeName
  {
    var cs := request.containers;
    PodSpec(
      restartPolicy := RestartPolicyNever,
      dnsPolicy := DNSDefault,
      hostIPC := AnyContainer(cs, UsesHostIpc),
      hostNetwork := AnyContainer(cs, c => UsesHostNetwork(request.networks, c)),
      hostPID := AnyContainer(cs, UsesHostPid),
      nodeName := request.nodeName)
  }

  /** A request with containers appended keeps every host flag already set:
      one container asking for host mode wins over any number that do not. */
  lemma HostFlagsSurviveMoreContainers(request: DeploymentSyncRequest, more: seq<Container>)
    ensures var spec := GetPodSpec(request);
      var spec' := GetPodSpec(request.(containers := request.containers + more));
      (spec.hostIPC ==> spec'.hostIPC) && (spec.hostPID ==> spec'.hostPID)
      && (spec.hostNetwork ==> spec'.hostNetwork)
  {
  }

  /** The container fields the pod-level flags read. */
  predicate SameHostModes(c: Container, d: Container)
  {
    c.ipcMode == d.ipcMode && c.pidMode == d.pidMode && c.primaryNetworkId == d.primaryNetworkId
  }

  /** A flag folded over two container lists that agree pointwise on it. */
  lemma AnyContainerPointwise(cs: seq<Container>, ds: seq<Container>, asks: Container -> bool)
    requires |cs| == |ds|
    requires forall i :: 0 <= i < |cs| ==> asks(cs[i]) == asks(ds[i])
    ensures AnyContainer(cs, asks) == AnyContainer(ds, asks)
  {
  }

  /** The pod spec depends on the containers only through their IPC mode, PID
      mode and primary network: any other container field may change. */
  lemma PodSpecReadsOnlyHostModes(request: DeploymentSyncRequest, cs: seq<Container>)
    requires |cs| == |request.containers|
    requires forall i :: 0 <= i < |cs| ==> SameHostModes(cs[i], request.containers[i])
    ensures GetPodSpec(request.(containers := cs)) == GetPodSpec(request)
  {
    var ds, networks := request.containers, request.networks;
    AnyContainerPointwise(cs, ds, UsesHostIpc);
    AnyContainerPointwise(cs, ds, UsesHostPid);
    AnyContainerPointwise(cs, ds, c => UsesHostNetwork(networks, c));
  }

  /** In particular a container's own restart policy never reaches the pod:
      replacing it leaves the spec as it was. */
  lemma RestartPolicyNotPropagated(request: DeploymentSyncRequest, k: nat, policy: Option<Rancher.RestartPolicy>)
    requires k < |request.containers|
    ensures GetPodSpec(request.(containers := request.containers[k := request.containers[k].(restartPolicy := policy)]))
      == GetPodSpec(request)
  {
    PodSpecReadsOnlyHostModes(request, request.containers[k := request.containers[k].(restartPolicy := policy)]);
  }
}
