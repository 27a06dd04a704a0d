/** The table tests of the translation, each restated as a lemma over the
    model. Wherever a test compares against utils.Hash(x), the lemma holds
    for every hash function. */
module PodFromDuTest {
  import opened Wrappers
  import opened Strings
  import opened Rancher
  import opened RancherLabels
  import opened Kube
  import opened PodMeta
  import opened PodSpecs
  import opened SecurityContexts
  import opened HostAliases
  import opened Volumes
  import opened Affinities

  const ZeroUuid: string := "00000000-0000-0000-0000-000000000000"

  lemma TestGetLabels()
    ensures GetLabels(EmptyRequest.(revision := "revision", deploymentUnitUuid := ZeroUuid))
      == map[RevisionLabel := "revision", DeploymentUuidLabel := ZeroUuid]
  {
  }

  /** The primary container of the annotation test. */
  const PrimaryC1: Container := EmptyContainer.(name := "c1", uuid := ZeroUuid,
    labels := map[ServiceLaunchConfig := Text(ServicePrimaryLaunchConfig), "a" := Text("b")])

  /** The secondary container of the annotation test. */
  const SecondaryC2: Container := EmptyContainer.(name := "c2", uuid := ZeroUuid,
    labels := map["c" := Text("d")])

  lemma UuidKeyC1()
    ensures UuidKey(PrimaryC1) == "c1/io.rancher.container.uuid"
  {
  }

  lemma UuidKeyC2()
    ensures UuidKey(SecondaryC2) == "c2/io.rancher.container.uuid"
  {
  }

  lemma PrimaryC1Annotations()
    ensures ContainerAnnotations(PrimaryC1) == map["a" := "b", "c1/io.rancher.container.uuid" := ZeroUuid]
  {
    var c := PrimaryC1;
    assert IsPrimary(c);
    assert PropagatedKeys(c) == {"a"} by {
      assert c.labels.Keys == {ServiceLaunchConfig, "a"};
    }
    var fromLabels := map k | k in PropagatedKeys(c) :: Render(c.labels[k]);
    assert fromLabels == map["a" := "b"] by {
      assert fromLabels.Keys == {"a"};
      assert fromLabels["a"] == Render(Text("b")) == "b";
    }
    UuidKeyC1();
  }

  lemma SecondaryC2Annotations()
    ensures ContainerAnnotations(SecondaryC2) == map["c2/c" := "d", "c2/io.rancher.container.uuid" := ZeroUuid]
  {
    var c := SecondaryC2;
    UuidKeyC2();
    assert !IsPrimary(c);
    assert QualifiedLabels(c) == map["c2/c" := "d"] by {
      assert PropagatedKeys(c) == {"c"};
      var keys := set k | k in PropagatedKeys(c) :: Qualified(c.name, k);
      assert Qualified(c.name, "c") == "c2/c";
      assert keys == {"c2/c"};
      assert "c2/c"[|c.name| + 1..] == "c";
      assert QualifiedLabels(c).Keys == {"c2/c"};
    }
  }

  lemma TestGetAnnotations()
    ensures GetAnnotations(EmptyRequest.(containers := [PrimaryC1, SecondaryC2])) == map[
      "a" := "b",
      "c1/io.rancher.container.uuid" := ZeroUuid,
      "c2/c" := "d",
      "c2/io.rancher.container.uuid" := ZeroUuid]
  {
    AnnotationsOfTwo(PrimaryC1, SecondaryC2);
    PrimaryC1Annotations();
    SecondaryC2Annotations();
    MergedAnnotations();
  }

  lemma MergeOfTwo(m1: map<string, string>, m2: map<string, string>)
    ensures Merge([m1, m2]) == m1 + m2
  {
    assert [m1, m2][..1] == [m1];
    assert [m1][..0] == [];
    assert Merge([m1]) == map[] + m1 == m1;
  }

  lemma AnnotationsOfTwo(c1: Container, c2: Container)
    ensures Annotations([c1, c2]) == ContainerAnnotations(c1) + ContainerAnnotations(c2)
  {
    assert Contributions([c1, c2]) == [ContainerAnnotations(c1), ContainerAnnotations(c2)];
    MergeOfTwo(ContainerAnnotations(c1), ContainerAnnotations(c2));
  }

  lemma MergedAnnotations()
    ensures map["a" := "b", "c1/io.rancher.container.uuid" := ZeroUuid]
          + map["c2/c" := "d", "c2/io.rancher.container.uuid" := ZeroUuid]
         == map[
      "a" := "b",
      "c1/io.rancher.container.uuid" := ZeroUuid,
      "c2/c" := "d",
      "c2/io.rancher.container.uuid" := ZeroUuid]
  {
  }

  lemma TestGetPodSpecEmptyContainer()
    ensures GetPodSpec(EmptyRequest.(containers := [EmptyContainer]))
      == PodSpec(RestartPolicyNever, DNSDefault, false, false, false, "")
  {
  }

  lemma TestGetPodSpecHostModes()
    ensures var c := EmptyContainer.(
          labels := map[ServiceLaunchConfig := Text(ServicePrimaryLaunchConfig)],
          restartPolicy := Some(Rancher.RestartPolicy("always")),
          primaryNetworkId := "1",
          ipcMode := "host",
          pidMode := "host");
      GetPodSpec(DeploymentSyncRequest("", "", [c], [Network("1", HostNetworkingKind)], "node1"))
        == PodSpec(RestartPolicyNever, DNSDefault, true, true, true, "node1")
  {
  }

  lemma TestSecurityContext()
    ensures var sc := GetSecurityContext(EmptyContainer.(
          privileged := true,
          readOnly := true,
          capAdd := ["capadd1", "capadd2"],
          capDrop := ["capdrop1", "capdrop2"]));
      && sc.privileged == Some(true)
      && sc.readOnlyRootFilesystem == Some(true)
      && sc.capabilities.Some?
      && sc.capabilities.value.add == [Capability("capadd1"), Capability("capadd2")]
      && sc.capabilities.value.drop == [Capability("capdrop1"), Capability("capdrop2")]
  {
  }

  lemma AliasOfEntry()
    ensures ParseHostAlias("hostname:0.0.0.0") == Some(HostAlias("0.0.0.0", ["hostname"]))
  {
    assert "hostname:0.0.0.0" == FormatHostAlias("hostname", "0.0.0.0");
    assert ':' !in "hostname";
    HostAliasRoundTrip("hostname:0.0.0.0", "hostname", "0.0.0.0");
  }

  lemma TestGetHostAliases()
    ensures GetHostAliases(EmptyContainer.(extraHosts := ["hostname:0.0.0.0"]))
      == [HostAlias(ip := "0.0.0.0", hostnames := ["hostname"])]
  {
    var entries := ["hostname:0.0.0.0"];
    AliasOfEntry();
    assert ':' in entries[0];
    var r := AliasesOf(entries);
    assert |r| == 1 && r[0] == HostAlias("0.0.0.0", ["hostname"]);
  }

  lemma BindOfHostPath()
    ensures ParseBind("/host/path:/container/path") == Some(Bind("/host/path", "/container/path"))
  {
    assert "/host/path:/container/path" == "/host/path" + [':'] + "/container/path";
    CutLastOfJoin("/host/path", ':', "/container/path");
  }

  lemma EnumerateOne(path: string)
    ensures Enumerate({path}) == [path]
  {
  }

  /** The declarations of the test container with one bind spec. */
  lemma BindContainerDecls(c: Container)
    requires c == EmptyContainer.(dataVolumes := ["/host/path:/container/path"])
    ensures ContainerDecls(c) == [Bind("/host/path", "/container/path")]
  {
    BindOfHostPath();
    var specs := c.dataVolumes;
    assert BindDecls(specs[1..]) == [];
    assert BindDecls(specs) == [Bind("/host/path", "/container/path")];
    assert c.tmpfs.Keys == {};
    assert Enumerate(c.tmpfs.Keys) == [];
  }

  /** The declarations of the test container with one tmpfs path. */
  lemma TmpfsContainerDecls(c: Container)
    requires c == EmptyContainer.(tmpfs := map["/dir" := Flag(true)])
    ensures ContainerDecls(c) == [Tmpfs("/dir")]
  {
    assert c.tmpfs.Keys == {"/dir"};
    EnumerateOne("/dir");
    assert BindDecls(c.dataVolumes) == [];
  }

  /** The declarations of the test container with one anonymous spec. */
  lemma AnonymousContainerDecls(c: Container)
    requires c == EmptyContainer.(dataVolumes := ["/anonymous/volume"])
    ensures ContainerDecls(c) == []
  {
    assert ':' !in "/anonymous/volume";
    var specs := c.dataVolumes;
    assert BindDecls(specs[1..]) == [];
    assert c.tmpfs.Keys == {};
    assert Enumerate(c.tmpfs.Keys) == [];
  }

  lemma AllVolumesOfOne(hash: string -> string, c: Container)
    ensures AllVolumes(hash, [c]) == ContainerVolumes(hash, c)
  {
    var cs := [c];
    var vss := seq(|cs|, i requires 0 <= i < |cs| => ContainerVolumes(hash, cs[i]));
    assert AllVolumes(hash, cs) == Flatten(vss);
    assert |vss| == 1 && vss[0] == ContainerVolumes(hash, c);
    assert vss[..0] == [];
    assert Flatten(vss) == Flatten(vss[..0]) + vss[0];
  }

  lemma DedupOfOne(vs: seq<Volume>)
    requires |vs| <= 1
    ensures DedupByName(vs) == vs
  {
    if |vs| == 1 {
      var none := vs[..0];
      assert none == [];
      assert DedupByName(none) == [];
      assert Names([]) == {};
      assert DedupByName(vs) == DedupByName(none) + [vs[0]];
    }
  }

  /** A pod with one container has that container's volumes, when it
      declares at most one. */
  lemma OneContainerVolumes(hash: string -> string, c: Container)
    requires |ContainerDecls(c)| <= 1
    ensures GetVolumes(hash, EmptyRequest.(containers := [c])) == VolumesOf(hash, ContainerDecls(c))
  {
    AllVolumesOfOne(hash, c);
    DedupOfOne(ContainerVolumes(hash, c));
  }

  lemma TestGetVolumesBind(hash: string -> string)
    ensures GetVolumes(hash, EmptyRequest.(containers := [EmptyContainer.(dataVolumes := ["/host/path:/container/path"])]))
      == [Volume(hash("/host/path"), HostPath("/host/path"))]
  {
    var c := EmptyContainer.(dataVolumes := ["/host/path:/container/path"]);
    BindContainerDecls(c);
    OneContainerVolumes(hash, c);
  }

  lemma TestGetVolumesTmpfs(hash: string -> string)
    ensures GetVolumes(hash, EmptyRequest.(containers := [EmptyContainer.(tmpfs := map["/dir" := Flag(true)])]))
      == [Volume(hash("/dir"), EmptyDir(StorageMediumMemory))]
  {
    var c := EmptyContainer.(tmpfs := map["/dir" := Flag(true)]);
    TmpfsContainerDecls(c);
    OneContainerVolumes(hash, c);
  }

  lemma TestGetVolumesAnonymous(hash: string -> string)
    ensures |GetVolumes(hash, EmptyRequest.(containers := [EmptyContainer.(dataVolumes := ["/anonymous/volume"])]))| == 0
  {
    var c := EmptyContainer.(dataVolumes := ["/anonymous/volume"]);
    AnonymousContainerDecls(c);
    OneContainerVolumes(hash, c);
  }

  lemma TestGetVolumeMountsBind(hash: string -> string)
    ensures GetVolumeMounts(hash, EmptyContainer.(dataVolumes := ["/host/path:/container/path"]))
      == [VolumeMount(hash("/host/path"), "/container/path")]
  {
    BindContainerDecls(EmptyContainer.(dataVolumes := ["/host/path:/container/path"]));
  }

  lemma TestGetVolumeMountsTmpfs(hash: string -> string)
    ensures GetVolumeMounts(hash, EmptyContainer.(tmpfs := map["/dir" := Flag(true)]))
      == [VolumeMount(hash("/dir"), "/dir")]
  {
    TmpfsContainerDecls(EmptyContainer.(tmpfs := map["/dir" := Flag(true)]));
  }

  lemma TestGetVolumeMountsAnonymous(hash: string -> string)
    ensures |GetVolumeMounts(hash, EmptyContainer.(dataVolumes := ["/anonymous/volume"]))| == 0
  {
    AnonymousContainerDecls(EmptyContainer.(dataVolumes := ["/anonymous/volume"]));
  }

  lemma SelectorOfTwo(k1: string, v1: string, k2: string, v2: string)
    ensures Selector([(k1, v1), (k2, v2)]) == k1 + "=" + v1 + "," + k2 + "=" + v2
  {
    var pieces := SelectorPieces([(k1, v1), (k2, v2)]);
    assert pieces == [k1 + "=" + v1, k2 + "=" + v2];
    assert Join(pieces[1..], ',') == pieces[1];
    assert Join(pieces, ',') == pieces[0] + [','] + pieces[1];
  }

  lemma WellFormedTwo(k1: string, v1: string, k2: string, v2: string)
    requires '=' !in k1 && ',' !in k1 && ',' !in v1
    requires '=' !in k2 && ',' !in k2 && ',' !in v2
    ensures WellFormedPairs([(k1, v1), (k2, v2)])
  {
  }

  lemma ParseSelectorOfTwo(k1: string, v1: string, k2: string, v2: string, op: NodeSelectorOperator)
    requires '=' !in k1 && ',' !in k1 && ',' !in v1
    requires '=' !in k2 && ',' !in k2 && ',' !in v2
    ensures EntryRequirements(Split(Selector([(k1, v1), (k2, v2)]), ','), op)
      == [NodeSelectorRequirement(k1, op, [v1]), NodeSelectorRequirement(k2, op, [v2])]
  {
    var pairs := [(k1, v1), (k2, v2)];
    var expected := seq(|pairs|, i requires 0 <= i < |pairs| => NodeSelectorRequirement(pairs[i].0, op, [pairs[i].1]));
    assert expected == [NodeSelectorRequirement(k1, op, [v1]), NodeSelectorRequirement(k2, op, [v2])];
    WellFormedTwo(k1, v1, k2, v2);
    SelectorRoundTrip(pairs, op);
  }

  /** A selector of two well-formed pairs parses to their two requirements. */
  lemma TwoPairs(k1: string, v1: string, k2: string, v2: string, op: NodeSelectorOperator)
    requires '=' !in k1 && ',' !in k1 && ',' !in v1
    requires '=' !in k2 && ',' !in k2 && ',' !in v2
    ensures EntryRequirements(Split(k1 + "=" + v1 + "," + k2 + "=" + v2, ','), op)
      == [NodeSelectorRequirement(k1, op, [v1]), NodeSelectorRequirement(k2, op, [v2])]
  {
    SelectorOfTwo(k1, v1, k2, v2);
    ParseSelectorOfTwo(k1, v1, k2, v2, op);
  }

  /** The term of an affinity label holding two pairs and an anti-affinity
      label holding two pairs: the `In` requirements, then the `NotIn` ones. */
  lemma TermOfTwoAndTwo(labels: map<string, LabelValue>, affinityKey: string, antiAffinityKey: string,
                        k1: string, v1: string, k2: string, v2: string,
                        k3: string, v3: string, k4: string, v4: string)
    requires '=' !in k1 && ',' !in k1 && ',' !in v1
    requires '=' !in k2 && ',' !in k2 && ',' !in v2
    requires '=' !in k3 && ',' !in k3 && ',' !in v3
    requires '=' !in k4 && ',' !in k4 && ',' !in v4
    requires affinityKey in labels && labels[affinityKey] == Text(k1 + "=" + v1 + "," + k2 + "=" + v2)
    requires antiAffinityKey in labels && labels[antiAffinityKey] == Text(k3 + "=" + v3 + "," + k4 + "=" + v4)
    ensures Term(labels, affinityKey, antiAffinityKey).matchExpressions == [
      NodeSelectorRequirement(k1, NodeSelectorOpIn, [v1]),
      NodeSelectorRequirement(k2, NodeSelectorOpIn, [v2]),
      NodeSelectorRequirement(k3, NodeSelectorOpNotIn, [v3]),
      NodeSelectorRequirement(k4, NodeSelectorOpNotIn, [v4])]
  {
    TwoPairs(k1, v1, k2, v2, NodeSelectorOpIn);
    TwoPairs(k3, v3, k4, v4, NodeSelectorOpNotIn);
  }

  /** The label texts of both affinity tests, as their pairs. */
  lemma ExampleTexts()
    ensures "key1=val1,key2=val2" == "key1" + "=" + "val1" + "," + "key2" + "=" + "val2"
    ensures "key3=val3,key4=val4" == "key3" + "=" + "val3" + "," + "key4" + "=" + "val4"
    ensures '=' !in "key1" && ',' !in "key1" && ',' !in "val1"
    ensures '=' !in "key2" && ',' !in "key2" && ',' !in "val2"
    ensures '=' !in "key3" && ',' !in "key3" && ',' !in "val3"
    ensures '=' !in "key4" && ',' !in "key4" && ',' !in "val4"
  {
  }

  /** The four requirements both affinity tests expect from the labels
      "key1=val1,key2=val2" and "key3=val3,key4=val4". */
  lemma ExampleTerm(labels: map<string, LabelValue>, affinityKey: string, antiAffinityKey: string)
    requires affinityKey in labels && labels[affinityKey] == Text("key1=val1,key2=val2")
    requires antiAffinityKey in labels && labels[antiAffinityKey] == Text("key3=val3,key4=val4")
    ensures var me := Term(labels, affinityKey, antiAffinityKey).matchExpressions;
      && |me| == 4
      && NodeSelectorRequirement("key1", NodeSelectorOpIn, ["val1"]) in me
      && NodeSelectorRequirement("key2", NodeSelectorOpIn, ["val2"]) in me
      && NodeSelectorRequirement("key3", NodeSelectorOpNotIn, ["val3"]) in me
      && NodeSelectorRequirement("key4", NodeSelectorOpNotIn, ["val4"]) in me
  {
    ExampleTexts();
    TermOfTwoAndTwo(labels, affinityKey, antiAffinityKey,
      "key1", "val1", "key2", "val2", "key3", "val3", "key4", "val4");
  }

  lemma TestGetAffinityRequired()
    ensures var a := GetAffinity(EmptyContainer.(labels := map[
          HostAffinityLabel := Text("key1=val1,key2=val2"),
          HostAntiAffinityLabel := Text("key3=val3,key4=val4")]));
      a.Some? && a.value.nodeAffinity.Some?
      && a.value.nodeAffinity.value.requiredDuringSchedulingIgnoredDuringExecution.Some?
      && var me := a.value.nodeAffinity.value.requiredDuringSchedulingIgnoredDuringExecution.value
          .nodeSelectorTerms[0].matchExpressions;
        && |me| == 4
        && NodeSelectorRequirement("key1", NodeSelectorOpIn, ["val1"]) in me
        && NodeSelectorRequirement("key2", NodeSelectorOpIn, ["val2"]) in me
        && NodeSelectorRequirement("key3", NodeSelectorOpNotIn, ["val3"]) in me
        && NodeSelectorRequirement("key4", NodeSelectorOpNotIn, ["val4"]) in me
  {
    var labels := map[
      HostAffinityLabel := Text("key1=val1,key2=val2"),
      HostAntiAffinityLabel := Text("key3=val3,key4=val4")];
    ExampleTerm(labels, HostAffinityLabel, HostAntiAffinityLabel);
  }

  lemma TestGetAffinityPreferred()
    ensures var a := GetAffinity(EmptyContainer.(labels := map[
          HostSoftAffinityLabel := Text("key1=val1,key2=val2"),
          HostSoftAntiAffinityLabel := Text("key3=val3,key4=val4")]));
      a.Some? && a.value.nodeAffinity.Some?
      && |a.value.nodeAffinity.value.preferredDuringSchedulingIgnoredDuringExecution| > 0
      && var me := a.value.nodeAffinity.value.preferredDuringSchedulingIgnoredDuringExecution[0]
          .preference.matchExpressions;
        && |me| == 4
        && NodeSelectorRequirement("key1", NodeSelectorOpIn, ["val1"]) in me
        && NodeSelectorRequirement("key2", NodeSelectorOpIn, ["val2"]) in me
        && NodeSelectorRequirement("key3", NodeSelectorOpNotIn, ["val3"]) in me
        && NodeSelectorRequirement("key4", NodeSelectorOpNotIn, ["val4"]) in me
  {
    var labels := map[
      HostSoftAffinityLabel := Text("key1=val1,key2=val2"),
      HostSoftAntiAffinityLabel := Text("key3=val3,key4=val4")];
    ExampleTerm(labels, HostSoftAffinityLabel, HostSoftAntiAffinityLabel);
  }

  /** Two pairs give the same requirements in either order. */
  lemma SwappedPairs(k1: string, v1: string, k2: string, v2: string, op: NodeSelectorOperator)
    requires '=' !in k1 && ',' !in k1 && ',' !in v1
    requires '=' !in k2 && ',' !in k2 && ',' !in v2
    ensures multiset(EntryRequirements(Split(k1 + "=" + v1 + "," + k2 + "=" + v2, ','), op))
         == multiset(EntryRequirements(Split(k2 + "=" + v2 + "," + k1 + "=" + v1, ','), op))
  {
    TwoPairs(k1, v1, k2, v2, op);
    TwoPairs(k2, v2, k1, v1, op);
  }

  /** Affinity parsing does not depend on the order of the entries. */
  lemma AffinityEntryOrderExample(op: NodeSelectorOperator)
    ensures multiset(EntryRequirements(Split("key1=val1,key2=val2", ','), op))
         == multiset(EntryRequirements(Split("key2=val2,key1=val1", ','), op))
  {
    ExampleTexts();
    assert "key2=val2,key1=val1" == "key2" + "=" + "val2" + "," + "key1" + "=" + "val1";
    SwappedPairs("key1", "val1", "key2", "val2", op);
  }
}
