/**
 * The custom resource's per-component configuration record and its layered
 * merge: `update` applies an overlay spec field by field, and the copy
 * constructor builds a fresh spec from another one through `update`.
 *
 * The merge rules of the nested `ImageSpec` and `ResourceMgmt` records are
 * not part of this model; they arrive as the function values of `Mergers`.
 */
module Spec {
  import opened Common

  /** Registry, repository, tag and pull policy of an image; each may be null. */
  datatype ImageSpec = ImageSpec(registry: JString, repository: JString, tag: JString, pullPolicy: JString)

  /** `new ImageSpec()`, taken to leave every field null. */
  const EmptyImage := ImageSpec(None, None, None, None)

  /** Requests and limits by resource name (cpu, memory), as Kubernetes quantities. */
  datatype ResourceMgmt = ResourceMgmt(requests: map<string, string>, limits: map<string, string>)

  /** A named rollout stage; the order of stages is supplied with the other helpers. */
  datatype Milestone = Milestone(name: string)

  /** Where an environment variable takes its value from. */
  datatype EnvValue = Literal(text: string) | SecretKeyRef(secretName: string, key: string)

  datatype EnvVar = EnvVar(name: string, value: EnvValue)

  /** Sizes of the persistent volumes; the middle three are deprecated. */
  datatype VolumeSize = VolumeSize(
    data: JString,
    mongoDbData: JString,
    mysqlData: JString,
    solrData: JString,
    transformedBlobCache: JString,
    uapiBlobCache: JString)

  /** `new VolumeSize()`: no size set. */
  const NoVolumeSize := VolumeSize(None, None, None, None, None, None)

  /** `new VolumeSize(size)`: the same size for every volume, deprecated ones included. */
  function UniformVolumeSize(size: JString): (v: VolumeSize)
    ensures v.data == size && v.transformedBlobCache == size && v.uapiBlobCache == size
    ensures v.mongoDbData == size && v.mysqlData == size && v.solrData == size
  {
    VolumeSize(size, size, size, size, size, size)
  }

  /** The configuration of one component instance. */
  datatype ComponentSpec = ComponentSpec(
    componentType: JString,
    kind: JString,
    name: JString,
    annotations: map<string, string>,
    args: seq<string>,
    env: seq<EnvVar>,
    extra: map<string, string>,
    image: ImageSpec,
    milestone: Option<Milestone>,
    resources: Option<ResourceMgmt>,
    schemas: map<string, string>,
    volumeSize: VolumeSize)

  /** The (type, kind, name) triple that identifies a component instance. */
  datatype Identity = Identity(componentType: JString, kind: JString, name: JString)

  function IdentityOf(s: ComponentSpec): Identity {
    Identity(s.componentType, s.kind, s.name)
  }

  /** `new ComponentSpec()` with its field initialisers: type null, kind and name empty. */
  function NewSpec(): (s: ComponentSpec)
    ensures s.componentType.None? && s.kind == Some("") && s.name == Some("")
    ensures s.env == [] && s.extra == map[] && s.schemas == map[] && s.annotations == map[] && s.args == []
    ensures s.milestone.None? && s.resources.None? && s.image == EmptyImage && s.volumeSize == NoVolumeSize
  {
    ComponentSpec(None, Some(""), Some(""), map[], [], [], map[], EmptyImage, None, None, map[], NoVolumeSize)
  }

  /** The merge rules of the nested records, whose code is not part of this model. */
  datatype Mergers = Mergers(
    imageUpdate: (ImageSpec, ImageSpec) -> ImageSpec,                     // ImageSpec.update
    resourcesMerge: (ResourceMgmt, Option<ResourceMgmt>) -> ResourceMgmt)  // ResourceMgmt.merge

  /** A size the overlay sets replaces the current one; an unset one leaves it. */
  function Override(current: JString, incoming: JString): JString {
    if incoming.Some? then incoming else current
  }

  /** `base.update(overlay)`, returning the updated spec instead of mutating `base`. */
  function Update(base: ComponentSpec, overlay: ComponentSpec, mergers: Mergers): (r: ComponentSpec)
    // fields update never writes
    ensures IdentityOf(r) == IdentityOf(base)
    ensures r.schemas == base.schemas
    ensures r.volumeSize.mongoDbData == base.volumeSize.mongoDbData
    ensures r.volumeSize.mysqlData == base.volumeSize.mysqlData
    ensures r.volumeSize.solrData == base.volumeSize.solrData
    // replaced wholesale
    ensures r.annotations == overlay.annotations && r.args == overlay.args
    // appended, nothing dropped or merged by name
    ensures r.env == base.env + overlay.env
    ensures |r.env| == |base.env| + |overlay.env|
    ensures r.env[..|base.env|] == base.env && r.env[|base.env|..] == overlay.env
    // map union, overlay wins
    ensures r.extra.Keys == base.extra.Keys + overlay.extra.Keys
    ensures forall k :: k in overlay.extra ==> r.extra[k] == overlay.extra[k]
    ensures forall k :: k in base.extra && k !in overlay.extra ==> r.extra[k] == base.extra[k]
    ensures r.image == mergers.imageUpdate(base.image, overlay.image)
    ensures overlay.milestone.Some? ==> r.milestone == overlay.milestone
    ensures overlay.milestone.None? ==> r.milestone == base.milestone
    ensures base.resources.None? ==> r.resources == overlay.resources
    ensures base.resources.Some? ==> r.resources == Some(mergers.resourcesMerge(base.resources.value, overlay.resources))
    // each current size is replaced only when the overlay sets it
    ensures overlay.volumeSize.data.Some? ==> r.volumeSize.data == overlay.volumeSize.data
    ensures overlay.volumeSize.data.None? ==> r.volumeSize.data == base.volumeSize.data
    ensures overlay.volumeSize.transformedBlobCache.Some? ==> r.volumeSize.transformedBlobCache == overlay.volumeSize.transformedBlobCache
    ensures overlay.volumeSize.transformedBlobCache.None? ==> r.volumeSize.transformedBlobCache == base.volumeSize.transformedBlobCache
    ensures overlay.volumeSize.uapiBlobCache.Some? ==> r.volumeSize.uapiBlobCache == overlay.volumeSize.uapiBlobCache
    ensures overlay.volumeSize.uapiBlobCache.None? ==> r.volumeSize.uapiBlobCache == base.volumeSize.uapiBlobCache
  {
    var vs := base.volumeSize;
    var incoming := overlay.volumeSize;
    base.(
      annotations := overlay.annotations,
      args := overlay.args,
      env := base.env + overlay.env,
      extra := base.extra + overlay.extra,
      image := mergers.imageUpdate(base.image, overlay.image),
      milestone := if overlay.milestone.Some? then overlay.milestone else base.milestone,
      resources :=
        if base.resources.None? then overlay.resources
        else Some(mergers.resourcesMerge(base.resources.value, overlay.resources)),
      volumeSize := vs.(
        data := Override(vs.data, incoming.data),
        transformedBlobCache := Override(vs.transformedBlobCache, incoming.transformedBlobCache),
        uapiBlobCache := Override(vs.uapiBlobCache, incoming.uapiBlobCache)))
  }

  /** `new ComponentSpec(that)`: a fresh spec with `that`'s identity, updated with `that`. */
  function Copy(that: ComponentSpec, mergers: Mergers): (r: ComponentSpec)
    ensures IdentityOf(r) == IdentityOf(that)
    ensures r.annotations == that.annotations && r.args == that.args
    ensures r.env == that.env && r.extra == that.extra
    ensures r.milestone == that.milestone && r.resources == that.resources
    ensures r.image == mergers.imageUpdate(EmptyImage, that.image)
    ensures r.volumeSize.data == that.volumeSize.data
    ensures r.volumeSize.transformedBlobCache == that.volumeSize.transformedBlobCache
    ensures r.volumeSize.uapiBlobCache == that.volumeSize.uapiBlobCache
    // not carried over
    ensures r.schemas == map[]
    ensures r.volumeSize.mongoDbData.None? && r.volumeSize.mysqlData.None? && r.volumeSize.solrData.None?
  {
    var blank := NewSpec().(componentType := that.componentType, kind := that.kind, name := that.name);
    assert blank.env + that.env == that.env;
    assert blank.extra + that.extra == that.extra;
    Update(blank, that, mergers)
  }

  /**
   * An overlay built with `new VolumeSize(size)` sets every size, yet update
   * only takes over the three current ones: the deprecated sizes keep the
   * base's values.
   */
  lemma DeprecatedSizesNotMerged(base: ComponentSpec, overlay: ComponentSpec, mergers: Mergers, size: string)
    requires overlay.volumeSize == UniformVolumeSize(Some(size))
    ensures var r := Update(base, overlay, mergers);
      && r.volumeSize.data == Some(size)
      && r.volumeSize.transformedBlobCache == Some(size)
      && r.volumeSize.uapiBlobCache == Some(size)
      && r.volumeSize.mongoDbData == base.volumeSize.mongoDbData
      && r.volumeSize.mysqlData == base.volumeSize.mysqlData
      && r.volumeSize.solrData == base.volumeSize.solrData
  {
  }

  /** Number of environment entries with the given name. */
  function CountNamed(env: seq<EnvVar>, n: string): nat {
    if |env| == 0 then 0
    else (if env[0].name == n then 1 else 0) + CountNamed(env[1..], n)
  }

  lemma {:induction false} CountNamedAppend(a: seq<EnvVar>, b: seq<EnvVar>, n: string)
    ensures CountNamed(a + b, n) == CountNamed(a, n) + CountNamed(b, n)
  {
    if |a| == 0 {
      assert a + b == b;
    } else {
      assert (a + b)[1..] == a[1..] + b;
      CountNamedAppend(a[1..], b, n);
    }
  }

  /**
   * The env merge keeps duplicates: for every variable name, the merged list
   * holds as many entries of that name as base and overlay together.
   */
  lemma UpdateKeepsDuplicateEnv(base: ComponentSpec, overlay: ComponentSpec, mergers: Mergers, n: string)
    ensures CountNamed(Update(base, overlay, mergers).env, n) == CountNamed(base.env, n) + CountNamed(overlay.env, n)
  {
    CountNamedAppend(base.env, overlay.env, n);
  }

  /**
   * Two layers applied in turn (type defaults, then instance overrides):
   * env accumulates in layer order, the last layer's annotations and args
   * win, and for extra the later layer wins key by key.
   */
  lemma UpdateTwice(base: ComponentSpec, first: ComponentSpec, second: ComponentSpec, mergers: Mergers)
    ensures var r := Update(Update(base, first, mergers), second, mergers);
      && IdentityOf(r) == IdentityOf(base)
      && r.env == base.env + first.env + second.env
      && r.annotations == second.annotations && r.args == second.args
      && r.extra.Keys == base.extra.Keys + first.extra.Keys + second.extra.Keys
      && (forall k :: k in second.extra ==> r.extra[k] == second.extra[k])
      && (forall k :: k in first.extra && k !in second.extra ==> r.extra[k] == first.extra[k])
      && (forall k :: k in base.extra && k !in first.extra && k !in second.extra ==> r.extra[k] == base.extra[k])
      && r.schemas == base.schemas
  {
  }
}
