/** Pod volumes and per-container volume mounts, from a container's bind
    specs ("hostPath:containerPath") and tmpfs paths. Volume names come from
    a content hash of the source path; the hash is a parameter (`hash`) about
    which nothing is assumed, not even that it is injective. */
module Volumes {
  import opened Wrappers
  import opened Strings
  import opened Rancher
  import opened Kube

  /** One volume declaration of a container. */
  datatype VolumeDecl =
    | Bind(hostPath: string, containerPath: string)
    | Tmpfs(path: string)

  /** A bind spec cut at its last ':'; a spec without ':' is an anonymous
      volume and declares nothing. */
  function ParseBind(spec: string): (r: Option<VolumeDecl>)
    ensures r.None? <==> ':' !in spec
    ensures r.Some? ==>
      r.value.Bind? && r.value.hostPath + ":" + r.value.containerPath == spec && ':' !in r.value.containerPath
  {
    match CutLast(spec, ':')
    case None => None
    case Some((hostPath, containerPath)) => Some(Bind(hostPath, containerPath))
  }

  /** The declarations of a list of bind specs, in order, anonymous ones dropped. */
  function BindDecls(specs: seq<string>): (r: seq<VolumeDecl>)
    ensures |r| <= |specs|
  {
    if specs == [] then []
    else match ParseBind(specs[0])
      case None => BindDecls(specs[1..])
      case Some(d) => [d] + BindDecls(specs[1..])
  }

  /** A bind is declared exactly when one of the specs parses to it. */
  lemma {:induction false} BindDeclsSpec(specs: seq<string>)
    ensures forall d :: d in BindDecls(specs) <==> exists s :: s in specs && ParseBind(s) == Some(d)
  {
    if specs != [] {
      BindDeclsSpec(specs[1..]);
      assert forall s :: s in specs <==> s == specs[0] || s in specs[1..];
    }
  }

  /** The keys of a Go map in the order a range loop visits them: each key
      once, in an order the model leaves open. */
  ghost function Enumerate(keys: set<string>): seq<string>
    decreases keys
  {
    if keys == {} then []
    else
      var k :| k in keys;
      [k] + Enumerate(keys - {k})
  }

  /** The enumeration visits every key, and nothing else, exactly once. */
  lemma {:induction false} EnumerateSpec(keys: set<string>)
    ensures |Enumerate(keys)| == |keys|
    ensures forall k :: k in Enumerate(keys) <==> k in keys
    decreases keys
  {
    if keys != {} {
      var k :| k in keys && Enumerate(keys) == [k] + Enumerate(keys - {k});
      EnumerateSpec(keys - {k});
    }
  }

  function TmpfsDecls(paths: seq<string>): seq<VolumeDecl>
  {
    seq(|paths|, i requires 0 <= i < |paths| => Tmpfs(paths[i]))
  }

  /** A container's declarations: its bind specs, then its tmpfs paths. */
  ghost function ContainerDecls(c: Container): seq<VolumeDecl>
  {
    BindDecls(c.dataVolumes) + TmpfsDecls(Enumerate(c.tmpfs.Keys))
  }

  /** The container declares `d`: one of its bind specs parses to it, or it
      is a tmpfs volume at one of its tmpfs paths. */
  predicate Declares(c: Container, d: VolumeDecl)
  {
    || (exists s :: s in c.dataVolumes && ParseBind(s) == Some(d))
    || (d.Tmpfs? && d.path in c.tmpfs)
  }

  /** A container's declarations are exactly those it declares. */
  lemma ContainerDeclsSpec(c: Container)
    ensures forall d :: d in ContainerDecls(c) <==> Declares(c, d)
  {
    BindDeclsSpec(c.dataVolumes);
    EnumerateSpec(c.tmpfs.Keys);
    var paths := Enumerate(c.tmpfs.Keys);
    var tmpfs := TmpfsDecls(paths);
    forall d | d in tmpfs ensures d.Tmpfs? && d.path in c.tmpfs {
      var i :| 0 <= i < |tmpfs| && tmpfs[i] == d;
      assert paths[i] in paths;
    }
    forall d: VolumeDecl | d.Tmpfs? && d.path in c.tmpfs ensures d in tmpfs {
      var i :| 0 <= i < |paths| && paths[i] == d.path;
      assert tmpfs[i] == d;
    }
  }

  /** The pod volume a declaration needs: a host path, or an in-memory
      empty directory. */
  function VolumeOf(hash: string -> string, d: VolumeDecl): Volume
  {
    match d
    case Bind(hostPath, _) => Volume(hash(hostPath), HostPath(hostPath))
    case Tmpfs(path) => Volume(hash(path), EmptyDir(StorageMediumMemory))
  }

  /** The mount a declaration needs; it names the volume of the same
      declaration and mounts it at the container path, or at the tmpfs path. */
  function MountOf(hash: string -> string, d: VolumeDecl): (m: VolumeMount)
    ensures m.name == VolumeOf(hash, d).name
    ensures m.mountPath == if d.Bind? then d.containerPath else d.path
  {
    match d
    case Bind(hostPath, containerPath) => VolumeMount(hash(hostPath), containerPath)
    case Tmpfs(path) => VolumeMount(hash(path), path)
  }

  function VolumesOf(hash: string -> string, ds: seq<VolumeDecl>): seq<Volume>
  {
    seq(|ds|, i requires 0 <= i < |ds| => VolumeOf(hash, ds[i]))
  }

  function MountsOf(hash: string -> string, ds: seq<VolumeDecl>): seq<VolumeMount>
  {
    seq(|ds|, i requires 0 <= i < |ds| => MountOf(hash, ds[i]))
  }

  /** A container's mounts are exactly one per declaration: for a bind spec
      "h:p" the volume named hash(h) at p, for a tmpfs path t the volume named
      hash(t) at t; an anonymous spec gives none. */
  ghost function GetVolumeMounts(hash: string -> string, c: Container): (r: seq<VolumeMount>)
    ensures forall m :: m in r <==> exists d :: Declares(c, d) && m == MountOf(hash, d)
  {
    ContainerDeclsSpec(c);
    MountsOfSpec(hash, ContainerDecls(c));
    MountsOf(hash, ContainerDecls(c))
  }

  lemma MountsOfSpec(hash: string -> string, ds: seq<VolumeDecl>)
    ensures forall m :: m in MountsOf(hash, ds) <==> exists d :: d in ds && m == MountOf(hash, d)
  {
    var ms := MountsOf(hash, ds);
    forall m | m in ms ensures exists d :: d in ds && m == MountOf(hash, d) {
      var k :| 0 <= k < |ms| && ms[k] == m;
      assert ds[k] in ds;
    }
    forall d | d in ds ensures MountOf(hash, d) in ms {
      var k :| 0 <= k < |ds| && ds[k] == d;
      assert ms[k] == MountOf(hash, d);
    }
  }

  lemma VolumesOfSpec(hash: string -> string, ds: seq<VolumeDecl>)
    ensures forall v :: v in VolumesOf(hash, ds) <==> exists d :: d in ds && v == VolumeOf(hash, d)
  {
    var vs := VolumesOf(hash, ds);
    forall v | v in vs ensures exists d :: d in ds && v == VolumeOf(hash, d) {
      var k :| 0 <= k < |vs| && vs[k] == v;
      assert ds[k] in ds;
    }
    forall d | d in ds ensures VolumeOf(hash, d) in vs {
      var k :| 0 <= k < |ds| && ds[k] == d;
      assert vs[k] == VolumeOf(hash, d);
    }
  }

  /** The names of a list of volumes. */
  function Names(vs: seq<Volume>): set<string>
  {
    set v | v in vs :: v.name
  }

  /** No two volumes of the list share a name. */
  predicate UniqueNames(vs: seq<Volume>)
  {
    forall i, j :: 0 <= i < j < |vs| ==> vs[i].name != vs[j].name
  }

  /** The first volume of each name, in order. */
  function DedupByName(vs: seq<Volume>): (r: seq<Volume>)
    ensures forall v :: v in r ==> v in vs
    ensures Names(r) == Names(vs)
    ensures UniqueNames(r)
  {
    if vs == [] then []
    else
      var init, v := vs[..|vs| - 1], vs[|vs| - 1];
      var rest := DedupByName(init);
      assert vs == init + [v];
      assert Names(vs) == Names(init) + {v.name};
      if v.name in Names(rest) then rest
      else
        assert Names(rest + [v]) == Names(rest) + {v.name};
        rest + [v]
  }

  /** The lists, one after another. */
  function Flatten<T>(xss: seq<seq<T>>): seq<T>
  {
    if xss == [] then [] else Flatten(xss[..|xss| - 1]) + xss[|xss| - 1]
  }

  /** An element is in the flattened list exactly when it is in one of the lists. */
  lemma {:induction false} FlattenSpec<T>(xss: seq<seq<T>>, x: T)
    ensures x in Flatten(xss) <==> exists i :: 0 <= i < |xss| && x in xss[i]
  {
    if xss != [] {
      var init := xss[..|xss| - 1];
      FlattenSpec(init, x);
      if x in Flatten(init) {
        var i :| 0 <= i < |init| && x in init[i];
        assert xss[i] == init[i];
      }
      if i :| 0 <= i < |xss| && x in xss[i] {
        if i < |init| {
          assert init[i] == xss[i];
        }
      }
    }
  }

  /** The volumes one container needs, one per declaration. */
  ghost function ContainerVolumes(hash: string -> string, c: Container): seq<Volume>
  {
    VolumesOf(hash, ContainerDecls(c))
  }

  /** Every container's volumes, container by container. */
  ghost function AllVolumes(hash: string -> string, cs: seq<Container>): seq<Volume>
  {
    Flatten(seq(|cs|, i requires 0 <= i < |cs| => ContainerVolumes(hash, cs[i])))
  }

  /** The pod's volumes: every container's volumes, one per name. */
  ghost function GetVolumes(hash: string -> string, request: DeploymentSyncRequest): (r: seq<Volume>)
    ensures UniqueNames(r)
  {
    DedupByName(AllVolumes(hash, request.containers))
  }

  /** A volume appears among all the containers' volumes exactly when some
      container needs it. */
  lemma AllVolumesSpec(hash: string -> string, cs: seq<Container>, v: Volume)
    ensures v in AllVolumes(hash, cs) <==> exists i :: 0 <= i < |cs| && v in ContainerVolumes(hash, cs[i])
  {
    var vss := seq(|cs|, i requires 0 <= i < |cs| => ContainerVolumes(hash, cs[i]));
    FlattenSpec(vss, v);
    assert forall i :: 0 <= i < |cs| ==> vss[i] == ContainerVolumes(hash, cs[i]);
  }

  /** A container needs a volume exactly when it declares something that
      volume serves. */
  lemma ContainerVolumesSpec(hash: string -> string, c: Container, v: Volume)
    ensures v in ContainerVolumes(hash, c) <==> exists d :: Declares(c, d) && v == VolumeOf(hash, d)
  {
    ContainerDeclsSpec(c);
    VolumesOfSpec(hash, ContainerDecls(c));
  }

  /** Every mount of every container names a volume of the pod, and every
      volume of the pod is named by some container's mount. */
  lemma MountsMatchVolumes(hash: string -> string, request: DeploymentSyncRequest, name: string)
    ensures name in Names(GetVolumes(hash, request)) <==>
      exists c, m :: c in request.containers && m in GetVolumeMounts(hash, c) && m.name == name
  {
    var cs := request.containers;
    var all := AllVolumes(hash, cs);
    assert Names(GetVolumes(hash, request)) == Names(all);
    if name in Names(all) {
      var v :| v in all && v.name == name;
      AllVolumesSpec(hash, cs, v);
      var i :| 0 <= i < |cs| && v in ContainerVolumes(hash, cs[i]);
      ContainerVolumesSpec(hash, cs[i], v);
      var d :| Declares(cs[i], d) && v == VolumeOf(hash, d);
      assert MountOf(hash, d) in GetVolumeMounts(hash, cs[i]);
      assert cs[i] in cs;
    }
    if c, m :| c in cs && m in GetVolumeMounts(hash, c) && m.name == name {
      var i :| 0 <= i < |cs| && cs[i] == c;
      var d :| Declares(c, d) && m == MountOf(hash, d);
      var v := VolumeOf(hash, d);
      ContainerVolumesSpec(hash, c, v);
      AllVolumesSpec(hash, cs, v);
      assert v in all;
    }
  }

  /** A host path bound by any number of containers yields exactly one pod
      volume of its name. */
  lemma SharedHostPathOneVolume(hash: string -> string, request: DeploymentSyncRequest, i: nat, s: string)
    requires i < |request.containers| && s in request.containers[i].dataVolumes
    requires ParseBind(s).Some?
    ensures |set v | v in GetVolumes(hash, request) && v.name == hash(ParseBind(s).value.hostPath)| == 1
  {
    var c, d := request.containers[i], ParseBind(s).value;
    assert Declares(c, d);
    assert MountOf(hash, d) in GetVolumeMounts(hash, c);
    MountsMatchVolumes(hash, request, hash(d.hostPath));
    OneOfEachName(GetVolumes(hash, request), hash(d.hostPath));
  }

  /** In a list without repeated names, a name of the list names one volume. */
  lemma OneOfEachName(vs: seq<Volume>, name: string)
    requires UniqueNames(vs) && name in Names(vs)
    ensures |set v | v in vs && v.name == name| == 1
  {
    var v :| v in vs && v.name == name;
    var named := set w | w in vs && w.name == name;
    forall w | w in named ensures w == v {
      var a :| 0 <= a < |vs| && vs[a] == w;
      var b :| 0 <= b < |vs| && vs[b] == v;
      assert a == b;
    }
    assert named == {v};
  }

  /** An anonymous volume spec changes neither the container's mounts nor the
      names of the pod's volumes; as Go's map order may differ between calls,
      neither is promised in the same order. */
  lemma AnonymousVolumeIgnored(hash: string -> string, request: DeploymentSyncRequest, i: nat, s: string)
    requires i < |request.containers| && ':' !in s
    ensures var c := request.containers[i];
      var c' := c.(dataVolumes := c.dataVolumes + [s]);
      && multiset(GetVolumeMounts(hash, c')) == multiset(GetVolumeMounts(hash, c))
      && Names(GetVolumes(hash, request.(containers := request.containers[i := c']))) == Names(GetVolumes(hash, request))
  {
    var c := request.containers[i];
    var c' := c.(dataVolumes := c.dataVolumes + [s]);
    AnonymousBindIgnored(c.dataVolumes, s);
    assert ContainerDecls(c') == ContainerDecls(c);
    AllVolumesSameDecls(hash, request.containers[i := c'], request.containers);
  }

  /** Containers with the same declarations give the same volumes. */
  lemma AllVolumesSameDecls(hash: string -> string, cs: seq<Container>, ds: seq<Container>)
    requires |cs| == |ds|
    requires forall i :: 0 <= i < |cs| ==> ContainerDecls(cs[i]) == ContainerDecls(ds[i])
    ensures AllVolumes(hash, cs) == AllVolumes(hash, ds)
  {
    var vss := seq(|cs|, i requires 0 <= i < |cs| => ContainerVolumes(hash, cs[i]));
    var wss := seq(|ds|, i requires 0 <= i < |ds| => ContainerVolumes(hash, ds[i]));
    assert vss == wss;
  }

  lemma {:induction false} AnonymousBindIgnored(specs: seq<string>, s: string)
    requires ':' !in s
    ensures BindDecls(specs + [s]) == BindDecls(specs)
  {
    if specs != [] {
      assert (specs + [s])[1..] == specs[1..] + [s];
      AnonymousBindIgnored(specs[1..], s);
    }
  }
}
