/**
 * The rules every component variant inherits: how a component is created
 * from its spec and updated with a later one, how its names, image and pull
 * policy are derived, when it may build resources and how ready it is, and
 * the default persistent volume claim, volumes, mounts and security context.
 *
 * The target state (the orchestrator a component asks for names, secrets and
 * workload status) and a few helper classes are not part of this model; the
 * parts of them the rules use arrive as the function values of `TargetState`
 * and `Helpers`, and lemmas that need a property of them say so in a
 * `requires`.
 */
module Components {
  import opened Common
  import opened Utils
  import opened Spec
  import opened Kube

  /** Operator-wide defaults of the custom resource. */
  datatype ComponentDefaults = ComponentDefaults(image: Option<ImageSpec>, storageClass: string)

  /** A resolved credential: its string data by key. */
  datatype ClientSecret = ClientSecret(stringData: map<string, string>)

  /** The state a component holds. */
  datatype Component = Component(
    spec: ComponentSpec,          // the component's own copy of its spec
    specName: JString,
    imageRepository: JString,
    schemas: map<string, string>)

  /** What a component reads from the target state during one pass. */
  datatype TargetState = TargetState(
    currentMilestone: Option<Milestone>,                   // milestone recorded in the custom resource's status
    defaults: ComponentDefaults,
    resourceNameFor: (Component, seq<string>) -> string,   // getResourceNameFor(component, suffixes...)
    isStatefulSetReady: string -> bool,
    jdbcClientSecrets: Option<seq<ClientSecret>>)          // the JDBC secret table's values in iteration order; None is null

  /** Helper classes whose code is not part of this model. */
  datatype Helpers = Helpers(
    mergers: Mergers,
    compareMilestones: (Option<Milestone>, Option<Milestone>) -> int,  // Milestone.compareTo
    equalsSpec: (ComponentSpec, ComponentSpec) -> bool)                // ComponentCollection.equalsSpec

  /**
   * What the model assumes of `Milestone.compareTo`: a total preorder in
   * which an unset required milestone is reached by every current one and an
   * unset current milestone reaches no named one.
   */
  ghost predicate MilestoneOrder(compare: (Option<Milestone>, Option<Milestone>) -> int) {
    && (forall a, b :: compare(a, b) >= 0 || compare(b, a) >= 0)
    && (forall a, b, x :: compare(a, b) >= 0 && compare(b, x) >= 0 ==> compare(a, x) >= 0)
    && (forall a :: compare(a, None) >= 0)
    && (forall m :: compare(None, Some(m)) < 0)
  }

  /** What the model assumes of `equalsSpec`: it holds exactly for equal (type, kind, name). */
  ghost predicate EqualsSpecComparesIdentity(equalsSpec: (ComponentSpec, ComponentSpec) -> bool) {
    forall a, b :: equalsSpec(a, b) <==> IdentityOf(a) == IdentityOf(b)
  }

  /** The component's spec name: its name when set and non-empty, else its type. */
  function SpecName(spec: ComponentSpec): (r: JString)
    ensures NonEmpty(spec.name) ==> r == spec.name
    ensures !NonEmpty(spec.name) ==> r == spec.componentType
    ensures NonEmpty(spec.componentType) ==> NonEmpty(r)
  {
    if spec.name.Some? && spec.name.value != "" then spec.name else spec.componentType
  }

  /**
   * The constructor: the component keeps a copy of the spec, and its schema
   * map starts from the schemas of the spec it was given, which the copy
   * itself does not carry.
   */
  function NewComponent(spec: ComponentSpec, imageRepository: JString, helpers: Helpers): (c: Component)
    ensures IdentityOf(c.spec) == IdentityOf(spec)
    ensures c.spec == Copy(spec, helpers.mergers)
    ensures c.specName == SpecName(spec)
    ensures c.imageRepository == imageRepository
    ensures c.schemas == spec.schemas
    ensures c.spec.schemas == map[]
  {
    Component(Copy(spec, helpers.mergers), SpecName(spec), imageRepository, spec.schemas)
  }

  /** The component may build resources once the current milestone reaches its required one. */
  function IsBuildResources(c: Component, ts: TargetState, helpers: Helpers): (b: bool)
    // under the assumed milestone order: no required milestone means always,
    // no recorded milestone means never for a component that requires one
    ensures MilestoneOrder(helpers.compareMilestones) && c.spec.milestone.None? ==> b
    ensures MilestoneOrder(helpers.compareMilestones) && ts.currentMilestone.None? && c.spec.milestone.Some? ==> !b
  {
    helpers.compareMilestones(ts.currentMilestone, c.spec.milestone) >= 0
  }

  const IdentityMismatchMessage := "Internal error: cannot update existing component because type/kind/name do not match"

  /**
   * `updateComponentSpec`: rejects a spec the helper does not consider the
   * same (type, kind, name); otherwise merges it into the component's spec
   * and adds that spec's schemas to the component's schema map.
   */
  function UpdateComponentSpec(c: Component, newCs: ComponentSpec, helpers: Helpers): (r: Result<Component, Error>)
    ensures r.Failure? <==> !helpers.equalsSpec(c.spec, newCs)
    ensures r.Failure? ==> r.error == IllegalArgument(IdentityMismatchMessage)
    ensures r.Success? ==> r.value.spec == Update(c.spec, newCs, helpers.mergers)
    ensures r.Success? ==> IdentityOf(r.value.spec) == IdentityOf(c.spec)
    ensures r.Success? ==> r.value.specName == c.specName && r.value.imageRepository == c.imageRepository
    ensures r.Success? ==> r.value.schemas.Keys == c.schemas.Keys + c.spec.schemas.Keys
    ensures r.Success? ==> forall k :: k in c.spec.schemas ==> r.value.schemas[k] == c.spec.schemas[k]
    ensures r.Success? ==> forall k :: k in c.schemas && k !in c.spec.schemas ==> r.value.schemas[k] == c.schemas[k]
  {
    if !helpers.equalsSpec(c.spec, newCs) then
      Failure(IllegalArgument(IdentityMismatchMessage))
    else
      var updated := Update(c.spec, newCs, helpers.mergers);
      Success(c.(spec := updated, schemas := c.schemas + updated.schemas))
  }

  /** A spec whose (type, kind, name) differs is always rejected, so the component stays as it was. */
  lemma ForeignIdentityRejected(c: Component, newCs: ComponentSpec, helpers: Helpers)
    requires EqualsSpecComparesIdentity(helpers.equalsSpec)
    requires IdentityOf(newCs) != IdentityOf(c.spec)
    ensures UpdateComponentSpec(c, newCs, helpers).Failure?
  {
  }

  /**
   * A component's own spec never holds schemas: the copy constructor does not
   * carry them and update never writes them. So the schema step of
   * `updateComponentSpec` adds nothing, and schemas in a later spec are lost.
   */
  lemma UpdateComponentSpecAddsNoSchemas(c: Component, newCs: ComponentSpec, helpers: Helpers)
    requires c.spec.schemas == map[]
    ensures var r := UpdateComponentSpec(c, newCs, helpers);
      r.Success? ==> r.value.schemas == c.schemas && r.value.spec.schemas == map[]
  {
    var r := UpdateComponentSpec(c, newCs, helpers);
    if r.Success? {
      assert r.value.schemas.Keys == c.schemas.Keys;
      assert c.schemas + map[] == c.schemas;
    }
  }

  /** The kind the component name is built from: the argument unless null or blank. */
  function NameKind(c: Component, kind: JString): (k: JString)
    ensures !IsNullOrBlank(kind) ==> k == kind
    ensures IsNullOrBlank(kind) ==> k == c.spec.kind
  {
    if kind.None? || IsBlank(kind.value) then c.spec.kind else kind
  }

  /** `getComponentName(kind)`: the spec name joined with the kind override, or with the spec's kind. */
  function GetComponentName(c: Component, kind: JString): (r: string)
    ensures IsNullOrBlank(kind) ==> r == ConcatOptional([c.specName, c.spec.kind])
    ensures !IsNullOrBlank(kind) && NonEmpty(c.specName) ==> r == c.specName.value + NameSeparator + kind.value
    ensures !IsNullOrBlank(kind) && !NonEmpty(c.specName) ==> r == kind.value
  {
    ConcatTwo(c.specName, NameKind(c, kind));
    ConcatOptional([c.specName, NameKind(c, kind)])
  }

  /** `getBaseResourceName`: the component name without a kind override. */
  function GetBaseResourceName(c: Component): (r: string)
    ensures r == GetComponentName(c, None)
    ensures NonEmpty(c.specName) && NonEmpty(c.spec.kind) ==> r == c.specName.value + NameSeparator + c.spec.kind.value
    ensures NonEmpty(c.specName) && !NonEmpty(c.spec.kind) ==> r == c.specName.value
  {
    ConcatTwo(c.specName, c.spec.kind);
    GetComponentName(c, None)
  }

  /** A blank override is no override: the name is the base resource name. */
  lemma BlankKindGivesBaseName(c: Component, kind: JString)
    requires IsNullOrBlank(kind)
    ensures GetComponentName(c, kind) == GetBaseResourceName(c)
  {
  }

  /**
   * Derived names are not collision-free: the components named "a-b" of no
   * kind and "a" of kind "b" share the base resource name "a-b".
   */
  lemma DistinctIdentitiesCanShareBaseName(helpers: Helpers)
    ensures exists s1: ComponentSpec, s2: ComponentSpec ::
      IdentityOf(s1) != IdentityOf(s2) &&
      GetBaseResourceName(NewComponent(s1, None, helpers)) == GetBaseResourceName(NewComponent(s2, None, helpers))
  {
    var s1 := NewSpec().(componentType := Some("mysql"), name := Some("a-b"), kind := Some(""));
    var s2 := NewSpec().(componentType := Some("mysql"), name := Some("a"), kind := Some("b"));
    var c1 := NewComponent(s1, None, helpers);
    var c2 := NewComponent(s2, None, helpers);
    assert GetBaseResourceName(c1) == "a-b";
    assert GetBaseResourceName(c2) == "a" + NameSeparator + "b";
    assert IdentityOf(s1).name != IdentityOf(s2).name;
  }

  /**
   * Names collide even before they are joined: a spec without a name takes
   * its type as spec name, so it meets a spec of another type named like
   * that type. Both parts handed to `concatOptional` are then equal, so the
   * base resource names agree whatever `concatOptional` does.
   */
  lemma DistinctTypesCanShareSpecName(helpers: Helpers)
    ensures exists s1: ComponentSpec, s2: ComponentSpec ::
      && IdentityOf(s1) != IdentityOf(s2)
      && SpecName(s1) == SpecName(s2) && s1.kind == s2.kind
      && GetBaseResourceName(NewComponent(s1, None, helpers)) == GetBaseResourceName(NewComponent(s2, None, helpers))
  {
    var s1 := NewSpec().(componentType := Some("a"), name := Some(""));
    var s2 := NewSpec().(componentType := Some("b"), name := Some("a"));
    assert SpecName(s1) == Some("a") == SpecName(s2);
    assert IdentityOf(s1).componentType != IdentityOf(s2).componentType;
  }

  /** `Objects.requireNonNullElse(defaults image, new ImageSpec())`. */
  function DefaultImage(ts: TargetState): ImageSpec {
    if ts.defaults.image.Some? then ts.defaults.image.value else EmptyImage
  }

  /** Image registry: instance, then defaults, then "coremedia". */
  function ImageRegistry(c: Component, ts: TargetState): (r: string)
    ensures NonEmpty(c.spec.image.registry) ==> r == c.spec.image.registry.value
    ensures !NonEmpty(c.spec.image.registry) && NonEmpty(DefaultImage(ts).registry) ==> r == DefaultImage(ts).registry.value
    ensures !NonEmpty(c.spec.image.registry) && !NonEmpty(DefaultImage(ts).registry) ==> r == "coremedia"
  {
    ThreeLevel(c.spec.image.registry, DefaultImage(ts).registry, Some("coremedia")).value
  }

  /** Image repository: instance, then defaults, then the component's own repository (null when none is set). */
  function ImageRepository(c: Component, ts: TargetState): (r: JString)
    ensures NonEmpty(c.spec.image.repository) ==> r == c.spec.image.repository
    ensures !NonEmpty(c.spec.image.repository) && NonEmpty(DefaultImage(ts).repository) ==> r == DefaultImage(ts).repository
    ensures !NonEmpty(c.spec.image.repository) && !NonEmpty(DefaultImage(ts).repository) ==>
      r == (if NonEmpty(c.imageRepository) then c.imageRepository else None)
  {
    ThreeLevel(c.spec.image.repository, DefaultImage(ts).repository, c.imageRepository)
  }

  /** Image tag: instance, then defaults, then "latest". */
  function ImageTag(c: Component, ts: TargetState): (r: string)
    ensures NonEmpty(c.spec.image.tag) ==> r == c.spec.image.tag.value
    ensures !NonEmpty(c.spec.image.tag) && NonEmpty(DefaultImage(ts).tag) ==> r == DefaultImage(ts).tag.value
    ensures !NonEmpty(c.spec.image.tag) && !NonEmpty(DefaultImage(ts).tag) ==> r == "latest"
  {
    ThreeLevel(c.spec.image.tag, DefaultImage(ts).tag, Some("latest")).value
  }

  /** `getImage`: registry/repository:tag, each part defaulted on its own. */
  function GetImage(c: Component, ts: TargetState): (r: string)
    ensures r == ImageRegistry(c, ts) + "/" + Str(ImageRepository(c, ts)) + ":" + ImageTag(c, ts)
  {
    ImageRegistry(c, ts) + "/" + Str(ImageRepository(c, ts)) + ":" + ImageTag(c, ts)
  }

  /** An instance tag wins over the defaults' and the fallback, the rest of the reference unchanged. */
  lemma InstanceTagWins(c: Component, ts: TargetState, tag: string)
    requires tag != ""
    ensures var c' := c.(spec := c.spec.(image := c.spec.image.(tag := Some(tag))));
      GetImage(c', ts) == ImageRegistry(c, ts) + "/" + Str(ImageRepository(c, ts)) + ":" + tag
  {
  }

  /** `getImagePullPolicy`: instance, then defaults, then "IfNotPresent". */
  function GetImagePullPolicy(c: Component, ts: TargetState): (r: string)
    ensures r != ""
    ensures NonEmpty(c.spec.image.pullPolicy) ==> r == c.spec.image.pullPolicy.value
    ensures !NonEmpty(c.spec.image.pullPolicy) && NonEmpty(DefaultImage(ts).pullPolicy) ==> r == DefaultImage(ts).pullPolicy.value
    ensures !NonEmpty(c.spec.image.pullPolicy) && !NonEmpty(DefaultImage(ts).pullPolicy) ==> r == "IfNotPresent"
  {
    ThreeLevel(c.spec.image.pullPolicy, DefaultImage(ts).pullPolicy, Some("IfNotPresent")).value
  }

  /**
   * `buildPvc(name)`: a ReadWriteOnce claim for 8Gi; an empty default storage
   * class becomes null, so the cluster's default class applies.
   */
  function BuildPvcNamed(ts: TargetState, name: string): (r: PersistentVolumeClaim)
    ensures r.name == name
    ensures r.accessModes == ["ReadWriteOnce"] && r.storageRequest == "8Gi"
    ensures r.storageClassName.None? <==> ts.defaults.storageClass == ""
    ensures r.storageClassName.Some? ==> r.storageClassName.value == ts.defaults.storageClass
    ensures r.storageClassName != Some("")
  {
    var sc: JString := if ts.defaults.storageClass == "" then None else Some(ts.defaults.storageClass);
    PersistentVolumeClaim(name, ["ReadWriteOnce"], "8Gi", sc)
  }

  /** `buildPvc()`: the claim named after the component. */
  function BuildPvc(c: Component, ts: TargetState): (r: PersistentVolumeClaim)
    ensures r == BuildPvcNamed(ts, ts.resourceNameFor(c, []))
  {
    BuildPvcNamed(ts, ts.resourceNameFor(c, []))
  }

  /** Default pod volumes: two empty directories. */
  function BaseVolumes(): (r: seq<Volume>)
    ensures |r| == 2 && r[0].name == "tmp" && r[1].name == "var-tmp"
    ensures forall i :: 0 <= i < |r| ==> r[i].source == EmptyDir
  {
    [Volume("tmp", EmptyDir), Volume("var-tmp", EmptyDir)]
  }

  /** Default mounts of the main container, one per default volume. */
  function BaseVolumeMounts(): (r: seq<VolumeMount>)
    ensures |r| == |BaseVolumes()|
    ensures forall i :: 0 <= i < |r| ==> r[i].name == BaseVolumes()[i].name
    ensures MountsResolve(BaseVolumes(), r)
    ensures r[0].mountPath == "/tmp" && r[1].mountPath == "/var/tmp"
  {
    var r := [VolumeMount("tmp", "/tmp"), VolumeMount("var-tmp", "/var/tmp")];
    assert BaseVolumes()[0].name in VolumeNames(BaseVolumes());
    assert BaseVolumes()[1].name in VolumeNames(BaseVolumes());
    r
  }

  /** User and group id the containers run as. */
  const UserId := 1000

  /** Pods run as the component's user, group and file-system group alike. */
  function GetPodSecurityContext(): (r: PodSecurityContext)
    ensures r.runAsUser == UserId && r.runAsGroup == UserId && r.fsGroup == UserId
  {
    PodSecurityContext(UserId, UserId, UserId)
  }

  /** Containers get a read-only root file system. */
  function GetSecurityContext(): (r: SecurityContext)
    ensures r.readOnlyRootFilesystem
  {
    SecurityContext(true)
  }

  /**
   * `isReady`: unknown (None) while the component may not build resources,
   * otherwise the readiness of its stateful set.
   */
  function IsReady(c: Component, ts: TargetState, helpers: Helpers): (r: Option<bool>)
    ensures r.None? <==> !IsBuildResources(c, ts, helpers)
    ensures r.Some? ==> r.value == ts.isStatefulSetReady(ts.resourceNameFor(c, []))
  {
    if helpers.compareMilestones(ts.currentMilestone, c.spec.milestone) < 0 then None
    else Some(ts.isStatefulSetReady(ts.resourceNameFor(c, [])))
  }

  /** A component without a required milestone always builds and always reports readiness. */
  lemma UnsetMilestoneAlwaysBuilds(c: Component, ts: TargetState, helpers: Helpers)
    requires MilestoneOrder(helpers.compareMilestones)
    requires c.spec.milestone.None?
    ensures IsBuildResources(c, ts, helpers)
    ensures IsReady(c, ts, helpers).Some?
  {
  }

  /** With no milestone recorded yet, a component that requires one is skipped and its readiness unknown. */
  lemma UnsetCurrentMilestoneSkips(c: Component, ts: TargetState, helpers: Helpers)
    requires MilestoneOrder(helpers.compareMilestones)
    requires ts.currentMilestone.None? && c.spec.milestone.Some?
    ensures !IsBuildResources(c, ts, helpers)
    ensures IsReady(c, ts, helpers).None?
  {
  }

  /** Eligibility is monotonic: reaching a later milestone never takes it away. */
  lemma BuildEligibilityMonotonic(c: Component, ts: TargetState, helpers: Helpers, later: Option<Milestone>)
    requires MilestoneOrder(helpers.compareMilestones)
    requires helpers.compareMilestones(later, ts.currentMilestone) >= 0
    requires IsBuildResources(c, ts, helpers)
    ensures IsBuildResources(c, ts.(currentMilestone := later), helpers)
  {
  }

  /**
   * `setDefaultSchemas`: adds each default whose key is missing; existing
   * entries are never overwritten, and nothing else of the component changes.
   */
  function SetDefaultSchemas(c: Component, defaults: map<string, string>): (r: Component)
    ensures r.schemas.Keys == c.schemas.Keys + defaults.Keys
    ensures forall k :: k in c.schemas ==> r.schemas[k] == c.schemas[k]
    ensures forall k :: k in defaults && k !in c.schemas ==> r.schemas[k] == defaults[k]
    ensures r.(schemas := c.schemas) == c
  {
    c.(schemas := defaults + c.schemas)
  }

  /** Setting the same defaults twice changes nothing the second time. */
  lemma SetDefaultSchemasIdempotent(c: Component, defaults: map<string, string>)
    ensures SetDefaultSchemas(SetDefaultSchemas(c, defaults), defaults) == SetDefaultSchemas(c, defaults)
  {
    var once := SetDefaultSchemas(c, defaults);
    var twice := SetDefaultSchemas(once, defaults);
    assert twice.schemas == once.schemas;
  }
}
