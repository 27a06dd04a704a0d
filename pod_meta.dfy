/** The pod's metadata: the identity labels of the deployment unit and the
    annotations flattened from every container's labels. */
module PodMeta {
  import opened Rancher
  import opened RancherLabels

  /** The two identity labels of the deployment unit, present even when empty. */
  function GetLabels(request: DeploymentSyncRequest): (r: map<string, string>)
    ensures r.Keys == {RevisionLabel, DeploymentUuidLabel} && |r| == 2
    ensures r[RevisionLabel] == request.revision
    ensures r[DeploymentUuidLabel] == request.deploymentUnitUuid
  {
    map[RevisionLabel := request.revision, DeploymentUuidLabel := request.deploymentUnitUuid]
  }

  /** Two requests get the same labels exactly when they carry the same
      revision and deployment-unit identifier. */
  lemma LabelsIdentifyDeployment(a: DeploymentSyncRequest, b: DeploymentSyncRequest)
    ensures GetLabels(a) == GetLabels(b)
        <==> a.revision == b.revision && a.deploymentUnitUuid == b.deploymentUnitUuid
  {
  }

  /** A container is the primary launch config when its launch-config label
      holds the primary marker value. */
  predicate IsPrimary(c: Container)
  {
    ServiceLaunchConfig in c.labels && c.labels[ServiceLaunchConfig] == Text(ServicePrimaryLaunchConfig)
  }

  /** A key qualified by a container name. */
  function Qualified(name: string, key: string): string
  {
    name + "/" + key
  }

  /** The annotation that always carries the container's identifier. */
  function UuidKey(c: Container): string
  {
    Qualified(c.name, ContainerUuidLabel)
  }

  /** The annotation key a container's label key becomes. */
  function AnnotationKey(c: Container, key: string): string
  {
    if IsPrimary(c) then key else Qualified(c.name, key)
  }

  /** The label keys a container propagates: all but the launch-config marker. */
  function PropagatedKeys(c: Container): set<string>
  {
    set k | k in c.labels && k != ServiceLaunchConfig
  }

  /** A non-primary container's labels under keys qualified by its name. */
  function QualifiedLabels(c: Container): map<string, string>
  {
    var keys := set k | k in PropagatedKeys(c) :: Qualified(c.name, k);
    map a | a in keys :: Render(c.labels[a[|c.name| + 1..]])
  }

  lemma QualifiedLabelsSpec(c: Container)
    ensures forall a :: a in QualifiedLabels(c) <==> exists k :: k in PropagatedKeys(c) && a == Qualified(c.name, k)
    ensures forall k :: k in PropagatedKeys(c) ==> QualifiedLabels(c)[Qualified(c.name, k)] == Render(c.labels[k])
  {
  }

  /** The annotations one container contributes. */
  function ContainerAnnotations(c: Container): map<string, string>
  {
    var fromLabels :=
      if IsPrimary(c) then map k | k in PropagatedKeys(c) :: Render(c.labels[k])
      else QualifiedLabels(c);
    fromLabels[UuidKey(c) := c.uuid]
  }

  /** A container contributes its identifier under its qualified uuid key and
      each propagated label under that label's annotation key, and nothing
      else; the identifier wins over a label that lands on the same key. */
  lemma ContainerAnnotationsSpec(c: Container)
    ensures forall a :: a in ContainerAnnotations(c) <==>
      a == UuidKey(c) || exists k :: k in PropagatedKeys(c) && a == AnnotationKey(c, k)
    ensures ContainerAnnotations(c)[UuidKey(c)] == c.uuid
    ensures forall k :: k in PropagatedKeys(c) && AnnotationKey(c, k) != UuidKey(c) ==>
      ContainerAnnotations(c)[AnnotationKey(c, k)] == Render(c.labels[k])
  {
  }

  /** Maps merged in order: a later map's entry replaces an earlier one
      under the same key. */
  function Merge(ms: seq<map<string, string>>): map<string, string>
  {
    if ms == [] then map[] else Merge(ms[..|ms| - 1]) + ms[|ms| - 1]
  }

  /** A key is in the merge exactly when it is in one of the maps. */
  lemma {:induction false} MergeKeys(ms: seq<map<string, string>>, a: string)
    ensures a in Merge(ms) <==> exists i :: 0 <= i < |ms| && a in ms[i]
  {
    if ms != [] {
      var init := ms[..|ms| - 1];
      MergeKeys(init, a);
      if a in Merge(init) {
        var i :| 0 <= i < |init| && a in init[i];
        assert ms[i] == init[i];
      }
      if i :| 0 <= i < |ms| && a in ms[i] {
        if i < |init| {
          assert init[i] == ms[i];
        }
      }
    }
  }

  /** The last map holding a key decides its value in the merge. */
  lemma {:induction false} MergeLastWins(ms: seq<map<string, string>>, i: nat, a: string)
    requires i < |ms| && a in ms[i]
    requires forall j :: i < j < |ms| ==> a !in ms[j]
    ensures a in Merge(ms) && Merge(ms)[a] == ms[i][a]
  {
    if i < |ms| - 1 {
      var init := ms[..|ms| - 1];
      assert init[i] == ms[i];
      forall j | i < j < |init| ensures a !in init[j] {
        assert init[j] == ms[j];
      }
      MergeLastWins(init, i, a);
    }
  }

  /** What each container contributes, container by container. */
  function Contributions(cs: seq<Container>): seq<map<string, string>>
  {
    seq(|cs|, i requires 0 <= i < |cs| => ContainerAnnotations(cs[i]))
  }

  /** Every container's contributions, merged in container order. */
  function Annotations(cs: seq<Container>): map<string, string>
  {
    Merge(Contributions(cs))
  }

  /** The pod's annotations: exactly the keys some container contributes,
      each with the value one of those containers gives it. */
  function GetAnnotations(request: DeploymentSyncRequest): (r: map<string, string>)
    ensures forall a :: a in r <==> exists i :: 0 <= i < |request.containers| && a in ContainerAnnotations(request.containers[i])
    ensures forall a :: a in r ==>
      exists i :: 0 <= i < |request.containers| && a in ContainerAnnotations(request.containers[i])
        && r[a] == ContainerAnnotations(request.containers[i])[a]
  {
    AnnotationsSpec(request.containers);
    Annotations(request.containers)
  }

  /** Every value of the merge comes from a map holding its key. */
  lemma {:induction false} MergeValueOrigin(ms: seq<map<string, string>>, a: string)
    requires a in Merge(ms)
    ensures exists i :: 0 <= i < |ms| && a in ms[i] && Merge(ms)[a] == ms[i][a]
  {
    var init := ms[..|ms| - 1];
    if a !in ms[|ms| - 1] {
      MergeValueOrigin(init, a);
      var i :| 0 <= i < |init| && a in init[i] && Merge(init)[a] == init[i][a];
      assert ms[i] == init[i];
    }
  }

  /** Annotation keys and values, for every key at once. */
  lemma AnnotationsSpec(cs: seq<Container>)
    ensures forall a :: a in Annotations(cs) <==> exists i :: 0 <= i < |cs| && a in ContainerAnnotations(cs[i])
    ensures forall a :: a in Annotations(cs) ==>
      exists i :: 0 <= i < |cs| && a in ContainerAnnotations(cs[i]) && Annotations(cs)[a] == ContainerAnnotations(cs[i])[a]
  {
    var ms := Contributions(cs);
    assert forall i :: 0 <= i < |cs| ==> ms[i] == ContainerAnnotations(cs[i]);
    forall a ensures a in Annotations(cs) <==> exists i :: 0 <= i < |cs| && a in ContainerAnnotations(cs[i]) {
      AnnotationKeys(cs, a);
    }
    forall a | a in Annotations(cs)
      ensures exists i :: 0 <= i < |cs| && a in ContainerAnnotations(cs[i]) && Annotations(cs)[a] == ContainerAnnotations(cs[i])[a]
    {
      MergeValueOrigin(ms, a);
    }
  }

  /** An annotation is present exactly when some container contributes it. */
  lemma AnnotationKeys(cs: seq<Container>, a: string)
    ensures a in Annotations(cs) <==> exists i :: 0 <= i < |cs| && a in ContainerAnnotations(cs[i])
  {
    var ms := Contributions(cs);
    MergeKeys(ms, a);
    assert forall i :: 0 <= i < |cs| ==> ms[i] == ContainerAnnotations(cs[i]);
  }

  /** The last container that contributes an annotation decides its value. */
  lemma AnnotationLastWins(cs: seq<Container>, i: nat, a: string)
    requires i < |cs| && a in ContainerAnnotations(cs[i])
    requires forall j :: i < j < |cs| ==> a !in ContainerAnnotations(cs[j])
    ensures a in Annotations(cs) && Annotations(cs)[a] == ContainerAnnotations(cs[i])[a]
  {
    var ms := Contributions(cs);
    assert forall j :: 0 <= j < |cs| ==> ms[j] == ContainerAnnotations(cs[j]);
    MergeLastWins(ms, i, a);
  }

  /** The launch-config marker never becomes an annotation: the primary
      container drops it, and every other key holds a '/'. */
  lemma MarkerNotPropagated(cs: seq<Container>)
    ensures ServiceLaunchConfig !in Annotations(cs)
  {
    assert '/' !in ServiceLaunchConfig;
    forall i | 0 <= i < |cs| {
      ContainerAnnotationsSpec(cs[i]);
    }
    forall i, k | 0 <= i < |cs|
      ensures Qualified(cs[i].name, k) != ServiceLaunchConfig
    {
      assert Qualified(cs[i].name, k)[|cs[i].name|] == '/';
    }
    AnnotationKeys(cs, ServiceLaunchConfig);
  }

  /** Every container's identifier is annotated under its own name. */
  lemma UuidAnnotated(cs: seq<Container>, i: nat)
    requires i < |cs|
    ensures UuidKey(cs[i]) in Annotations(cs)
  {
    ContainerAnnotationsSpec(cs[i]);
    AnnotationKeys(cs, UuidKey(cs[i]));
  }
}
