/** A container's security context: explicit privileged and read-only flags
    and its capability lists. */
module SecurityContexts {
  import opened Wrappers
  import opened Rancher
  import opened Kube

  /** Each capability name wrapped in the Kubernetes capability type, in order. */
  function ToCapabilities(names: seq<string>): (r: seq<Capability>)
    ensures |r| == |names|
    ensures forall i :: 0 <= i < |names| ==> r[i] == Capability(names[i])
  {
    if names == [] then [] else [Capability(names[0])] + ToCapabilities(names[1..])
  }

  /** The capability names, unwrapped. */
  function CapabilityNames(caps: seq<Capability>): seq<string>
  {
    if caps == [] then [] else [caps[0].name] + CapabilityNames(caps[1..])
  }

  /** Unwrapping undoes wrapping: the lists keep every name and their order. */
  lemma {:induction false} CapabilityNamesOfCapabilities(names: seq<string>)
    ensures CapabilityNames(ToCapabilities(names)) == names
  {
    if names != [] {
      CapabilityNamesOfCapabilities(names[1..]);
    }
  }

  /** Both flags are set explicitly, false as well as true, and the capability
      lists are the container's, element for element. */
  function GetSecurityContext(c: Container): (r: SecurityContext)
    ensures r.privileged == Some(c.privileged)
    ensures r.readOnlyRootFilesystem == Some(c.readOnly)
    ensures r.capabilities.Some?
    ensures CapabilityNames(r.capabilities.value.add) == c.capAdd
    ensures CapabilityNames(r.capabilities.value.drop) == c.capDrop
  {
    CapabilityNamesOfCapabilities(c.capAdd);
    CapabilityNamesOfCapabilities(c.capDrop);
    SecurityContext(
      privileged := Some(c.privileged),
      readOnlyRootFilesystem := Some(c.readOnly),
      capabilities := Some(Capabilities(add := ToCapabilities(c.capAdd), drop := ToCapabilities(c.capDrop))))
  }
}
