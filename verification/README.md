# CMCC operator component core, modelled in Dafny

This project models the resolution core of the CoreMedia Content Cloud
operator for Kubernetes:

- `ComponentSpec` is the per-component configuration record of the custom
  resource. Its `update` applies an overlay spec field by field, and its copy
  constructor builds a new spec through `update`.
- `AbstractComponent` holds the rules every component variant inherits:
  - the spec name, and component and resource names;
  - image and pull-policy defaulting: instance value, then the resource-wide
    defaults, then a fixed fallback;
  - milestone gating of resource building, and the tri-state readiness that
    follows from it;
  - rejection of an update whose (type, kind, name) differs;
  - schema defaults that only fill missing keys;
  - the default persistent volume claim, volumes, mounts and security
    contexts.
- `MySQLComponent` is the database variant:
  - its fixed image, ports, probes, environment, volumes and mounts;
  - the optional secret carrying the spec's extra data;
  - the order of its resource list;
  - the init script that creates a schema and a user for every JDBC client
    secret except root.

Everything is modelled as immutable datatypes and pure functions. The one
exception is the init-script generator, a method whose loop mirrors the
source. `update` returns the merged spec instead of mutating its receiver.

Files and modules:

| file | module | models |
|---|---|---|
| `common.dfy` | `Common` | `Option`, `Result`, nullable Java strings (`JString`), the exceptions raised |
| `utils.dfy` | `Utils` | `String.isBlank`, and the assumed behaviour of `defaultString` and `concatOptional` |
| `component_spec.dfy` | `Spec` | `ComponentSpec`, `VolumeSize`, `update`, the copy constructor |
| `kube.dfy` | `Kube` | the few Kubernetes object fields the components decide |
| `abstract_component.dfy` | `Components` | `AbstractComponent` |
| `mysql_component.dfy` | `MySql` | `MySQLComponent` |

Java `null` is modelled explicitly where the code tests for it or where it
can reach a result. That covers the identity strings, image fields, volume
sizes, the milestone, the resources block and the JDBC secret table.

Collaborators whose code is not part of this model are passed in as function
values:
- `Helpers`: `ImageSpec.update`, `ResourceMgmt.merge`, `Milestone.compareTo`
  and `ComponentCollection.equalsSpec`;
- `TargetState`: `getResourceNameFor`, `isStatefulSetReady`, the recorded
  milestone, the defaults and the JDBC secret table;
- `MySql.Builders`: `getPersistentVolumeClaim`, `getVolumeSize`,
  `buildStatefulSet` and `buildService`.

Nothing is assumed about these values unless a lemma's `requires` or the
premise of a conditional `ensures` says so.

The stated assumptions are:
- `Milestone.compareTo` is a total preorder. Every current milestone reaches
  an unset required one, and an unset current milestone reaches no named one
  (`Components.MilestoneOrder`).
- `equalsSpec` holds exactly when (type, kind, name) agree
  (`Components.EqualsSpecComparesIdentity`).
- `defaultString` returns its first argument that is neither null nor empty,
  and null when there is none (`Utils.DefaultString`).
- `concatOptional` joins its non-null, non-empty parts with `-`
  (`Utils.ConcatOptional`).
- `Utils.format` replaces each `{}` with the next argument, and a null
  argument prints as `null` (`MySql.Render`).
- `new ImageSpec()` has every field null.
- The secret-data keys are `username`, `password` and `schema`. The
  `ClientSecretRef` class that defines them is not part of this model.
- `getResourceNameFor(c, s)` is `getResourceNameFor(c)` + `-` + `s`
  (`MySql.SuffixJoinsWithHyphen`). Only `MySql.InitVolumeReadsExtraSecret`
  uses this.
- `Utils.EnvVarSecret(name, secret, key)` builds an environment variable
  `name` whose value is read from key `key` of secret `secret`
  (`MySql.EnvVars`).

## Model

| member | source | states |
|---|---|---|
| `Spec.UniformVolumeSize` | src/main/java/com/tsystemsmms/cmcc/cmccoperator/crds/ComponentSpec.java:112-119 | the size constructor sets all six sizes to the same value, the deprecated ones included |
| `Spec.NewSpec` | src/main/java/com/tsystemsmms/cmcc/cmccoperator/crds/ComponentSpec.java:25-63 | field defaults: type null, kind and name empty, empty collections, no milestone, no resources, no sizes |
| `Spec.Update` | src/main/java/com/tsystemsmms/cmcc/cmccoperator/crds/ComponentSpec.java:72-90 | identity, schemas and deprecated sizes untouched; annotations and args taken from the overlay whatever the base; env is base then overlay (n+m entries, order kept); extra keys are the union with overlay values winning and base-only values kept; milestone and each current size change only when the overlay sets them; resources are taken from the overlay when unset, else merged |
| `Spec.Copy` | src/main/java/com/tsystemsmms/cmcc/cmccoperator/crds/ComponentSpec.java:65-70 | the copy has the source's identity, env, extra, annotations, args, milestone, resources and current sizes, but no schemas and no deprecated sizes |
| `Spec.DeprecatedSizesNotMerged` | src/main/java/com/tsystemsmms/cmcc/cmccoperator/crds/ComponentSpec.java:84-89 | an overlay that sets every size still leaves the three deprecated sizes at the base's values |
| `Spec.UpdateKeepsDuplicateEnv` | src/main/java/com/tsystemsmms/cmcc/cmccoperator/crds/ComponentSpec.java:75 | for every variable name, the merged env has as many entries of that name as base and overlay together (no de-duplication) |
| `Spec.UpdateTwice` | src/main/java/com/tsystemsmms/cmcc/cmccoperator/crds/ComponentSpec.java:72-90 | two layers applied in turn: env accumulates in layer order, the last layer's annotations and args win, extra is resolved key by key in favour of the latest layer holding the key (base-only keys keep the base's value), identity and schemas stay |
| `Utils.ThreeLevel` | src/main/java/com/tsystemsmms/cmcc/cmccoperator/components/AbstractComponent.java:131-162 | three-level defaulting: a non-empty instance value wins, else a non-empty defaults value, else the fallback (null if that is empty too) |
| `Utils.ConcatTwo` | src/main/java/com/tsystemsmms/cmcc/cmccoperator/components/AbstractComponent.java:116-118 | joining name and kind: both present gives name-kind, one present gives that one, none gives the empty string |
| `Components.SpecName` | src/main/java/com/tsystemsmms/cmcc/cmccoperator/components/AbstractComponent.java:53 | the spec name is the name when non-null and non-empty, otherwise the type; it is non-empty whenever the type is |
| `Components.NewComponent` | src/main/java/com/tsystemsmms/cmcc/cmccoperator/components/AbstractComponent.java:48-56 | the component holds a copy of the spec with the same identity and no schemas; its schema map starts as the given spec's schemas |
| `Components.UpdateComponentSpec` | src/main/java/com/tsystemsmms/cmcc/cmccoperator/components/AbstractComponent.java:63-72 | fails with IllegalArgument exactly when equalsSpec rejects the new spec; otherwise the spec becomes the merge, identity and spec name stay, and the schema map becomes the old map overlaid with the merged spec's schemas: the spec's values win, every other entry keeps its value |
| `Components.ForeignIdentityRejected` | src/main/java/com/tsystemsmms/cmcc/cmccoperator/components/AbstractComponent.java:64-67 | a spec whose type, kind or name differs is always rejected, so the component is left as it was |
| `Components.UpdateComponentSpecAddsNoSchemas` | src/main/java/com/tsystemsmms/cmcc/cmccoperator/components/AbstractComponent.java:68-69 | since the component's own spec never holds schemas, the schema step adds nothing: the schema map is unchanged after any successful update |
| `Components.NameKind` | src/main/java/com/tsystemsmms/cmcc/cmccoperator/components/AbstractComponent.java:114-115 | the kind override is used only when non-null and non-blank, otherwise the spec's kind |
| `Components.GetComponentName` | src/main/java/com/tsystemsmms/cmcc/cmccoperator/components/AbstractComponent.java:113-119 | with a null or blank kind the name joins spec name and spec kind; with a real kind it is specName-kind, or the kind alone when there is no spec name |
| `Components.GetBaseResourceName` | src/main/java/com/tsystemsmms/cmcc/cmccoperator/components/AbstractComponent.java:101-104 | equals the component name without override: specName-kind, or the spec name alone when the kind is empty |
| `Components.BlankKindGivesBaseName` | src/main/java/com/tsystemsmms/cmcc/cmccoperator/components/AbstractComponent.java:101-119 | a null or blank override yields the base resource name |
| `Components.DistinctIdentitiesCanShareBaseName` | src/main/java/com/tsystemsmms/cmcc/cmccoperator/components/AbstractComponent.java:113-119 | under the assumed `concatOptional`, there are two specs of different identity ("a-b" without a kind, "a" with kind "b") whose components get the same base resource name |
| `Components.DistinctTypesCanShareSpecName` | src/main/java/com/tsystemsmms/cmcc/cmccoperator/components/AbstractComponent.java:53 | two specs of different type, one unnamed and one named after the other's type, get equal spec names and kinds, hence the same base resource name whatever `concatOptional` does |
| `Components.ImageRegistry` | src/main/java/com/tsystemsmms/cmcc/cmccoperator/components/AbstractComponent.java:131-135 | registry: instance, else defaults, else "coremedia" |
| `Components.ImageRepository` | src/main/java/com/tsystemsmms/cmcc/cmccoperator/components/AbstractComponent.java:136-140 | repository: instance, else defaults, else the component's own repository, else null |
| `Components.ImageTag` | src/main/java/com/tsystemsmms/cmcc/cmccoperator/components/AbstractComponent.java:141-145 | tag: instance, else defaults, else "latest" |
| `Components.GetImage` | src/main/java/com/tsystemsmms/cmcc/cmccoperator/components/AbstractComponent.java:126-148 | the image reference is registry/repository:tag of the three defaulted parts, a null repository printing as "null" |
| `Components.InstanceTagWins` | src/main/java/com/tsystemsmms/cmcc/cmccoperator/components/AbstractComponent.java:141-147 | setting an instance tag changes only the tag of the reference, whatever the defaults say |
| `Components.GetImagePullPolicy` | src/main/java/com/tsystemsmms/cmcc/cmccoperator/components/AbstractComponent.java:155-163 | pull policy is never empty: a non-empty instance value always wins, else defaults, else "IfNotPresent" |
| `Components.BuildPvcNamed` | src/main/java/com/tsystemsmms/cmcc/cmccoperator/components/AbstractComponent.java:317-331 | a ReadWriteOnce claim of the given name requesting 8Gi; an empty default storage class yields none (never an empty class name), any other is used as is |
| `Components.BuildPvc` | src/main/java/com/tsystemsmms/cmcc/cmccoperator/components/AbstractComponent.java:313-315 | the default claim is the named claim for the component's resource name |
| `Components.BaseVolumes` | src/main/java/com/tsystemsmms/cmcc/cmccoperator/components/AbstractComponent.java:353-364 | two empty-directory volumes, "tmp" and "var-tmp" |
| `Components.BaseVolumeMounts` | src/main/java/com/tsystemsmms/cmcc/cmccoperator/components/AbstractComponent.java:371-382 | one mount per default volume, of the same name, at /tmp and /var/tmp; every mount names a declared volume |
| `Components.GetPodSecurityContext` | src/main/java/com/tsystemsmms/cmcc/cmccoperator/components/AbstractComponent.java:416-431 | pods run with user, group and fs group all equal to user id 1000 |
| `Components.GetSecurityContext` | src/main/java/com/tsystemsmms/cmcc/cmccoperator/components/AbstractComponent.java:405-409 | containers get a read-only root file system |
| `Components.IsBuildResources` | src/main/java/com/tsystemsmms/cmcc/cmccoperator/components/AbstractComponent.java:58-61 | under the assumed milestone order, a component without a required milestone is always eligible, and one that requires a milestone is not eligible before any milestone is recorded |
| `Components.IsReady` | src/main/java/com/tsystemsmms/cmcc/cmccoperator/components/AbstractComponent.java:434-439 | readiness is unknown exactly when the component may not build resources; otherwise it is the readiness of the stateful set named after the component |
| `Components.UnsetMilestoneAlwaysBuilds` | src/main/java/com/tsystemsmms/cmcc/cmccoperator/components/AbstractComponent.java:58-61 | a component with no required milestone builds at every current milestone and always reports readiness |
| `Components.UnsetCurrentMilestoneSkips` | src/main/java/com/tsystemsmms/cmcc/cmccoperator/components/AbstractComponent.java:434-439 | before any milestone is recorded, a component that requires one is skipped and its readiness is unknown |
| `Components.BuildEligibilityMonotonic` | src/main/java/com/tsystemsmms/cmcc/cmccoperator/components/AbstractComponent.java:58-61 | moving to a later current milestone never takes eligibility away |
| `Components.SetDefaultSchemas` | src/main/java/com/tsystemsmms/cmcc/cmccoperator/components/AbstractComponent.java:451-457 | the schema keys become the union; existing values are never overwritten; missing keys take the default; nothing else changes |
| `Components.SetDefaultSchemasIdempotent` | src/main/java/com/tsystemsmms/cmcc/cmccoperator/components/AbstractComponent.java:451-457 | applying the same defaults a second time changes nothing |
| `MySql.GetImage` | src/main/java/com/tsystemsmms/cmcc/cmccoperator/components/generic/MySQLComponent.java:107-110 | the image is always docker.io/mariadb:10.7 |
| `MySql.ImageIgnoresSpecAndDefaults` | src/main/java/com/tsystemsmms/cmcc/cmccoperator/components/generic/MySQLComponent.java:107-110 | any two components under any two target states get the same image: spec and defaults are ignored |
| `MySql.ContainerPorts` | src/main/java/com/tsystemsmms/cmcc/cmccoperator/components/generic/MySQLComponent.java:113-121 | one container port, "mysql", 3306 |
| `MySql.ServicePorts` | src/main/java/com/tsystemsmms/cmcc/cmccoperator/components/generic/MySQLComponent.java:123-127 | one service port "ior" on 3306 whose target names an existing container port with the same number |
| `MySql.StartupProbe` | src/main/java/com/tsystemsmms/cmcc/cmccoperator/components/generic/MySQLComponent.java:79-95 | the administrative status command with failure threshold 300, 10 s period, delay and timeout, success threshold 1: at least 3000 s before it gives up |
| `MySql.LivenessProbe` | src/main/java/com/tsystemsmms/cmcc/cmccoperator/components/generic/MySQLComponent.java:97-100 | liveness uses the startup probe |
| `MySql.ReadinessProbe` | src/main/java/com/tsystemsmms/cmcc/cmccoperator/components/generic/MySQLComponent.java:102-105 | readiness uses the startup probe |
| `MySql.EnvVars` | src/main/java/com/tsystemsmms/cmcc/cmccoperator/components/generic/MySQLComponent.java:72-77 | one variable, MYSQL_ROOT_PASSWORD, read from key "password" of the component's root secret |
| `MySql.EnvVarsReadRootPassword` | src/main/java/com/tsystemsmms/cmcc/cmccoperator/components/generic/MySQLComponent.java:46-77 | the variable's key is the one under which the root secret data stores the password, and its secret name is `getResourceNameFor(this, s)` for the same suffix s ("root") as the name of the requested credential |
| `MySql.RequestRequiredResources` | src/main/java/com/tsystemsmms/cmcc/cmccoperator/components/generic/MySQLComponent.java:46-54 | exactly one credential is requested: name "root" under the component's type, with username "root" |
| `MySql.RootSecretData` | src/main/java/com/tsystemsmms/cmcc/cmccoperator/components/generic/MySQLComponent.java:49-52 | the root secret holds exactly the password and the username "root" |
| `MySql.Volumes` | src/main/java/com/tsystemsmms/cmcc/cmccoperator/components/generic/MySQLComponent.java:129-152 | five volumes: the two defaults, the data volume claiming the component's claim, the init volume filled from the "extra"-suffixed secret with mode 420, and run-mysql |
| `MySql.VolumeMounts` | src/main/java/com/tsystemsmms/cmcc/cmccoperator/components/generic/MySQLComponent.java:154-172 | five mounts: the two defaults, data at /var/lib/mysql, init at /docker-entrypoint-initdb.d, run-mysql at /run/mysqld |
| `MySql.MountsMatchVolumes` | src/main/java/com/tsystemsmms/cmcc/cmccoperator/components/generic/MySQLComponent.java:129-172 | there are as many mounts as volumes, mount i names volume i, so every mount names a declared volume |
| `MySql.BuildExtraConfigMaps` | src/main/java/com/tsystemsmms/cmcc/cmccoperator/components/generic/MySQLComponent.java:174-182 | no secret iff extra is empty; otherwise exactly one Opaque secret named after the component with "-extra", whose string data is exactly extra |
| `MySql.BuildResources` | src/main/java/com/tsystemsmms/cmcc/cmccoperator/components/generic/MySQLComponent.java:56-65 | claim, stateful set, service, then the extra secret if any, in that order; 4 resources iff extra is non-empty, else 3 |
| `MySql.InitVolumeReadsExtraSecret` | src/main/java/com/tsystemsmms/cmcc/cmccoperator/components/generic/MySQLComponent.java:139-182 | if suffixes join with "-", the init volume reads exactly the secret that is built; with empty extra no secret is built at all |
| `MySql.InitVolumeMayMissExtraSecret` | src/main/java/com/tsystemsmms/cmcc/cmccoperator/components/generic/MySQLComponent.java:139-182 | without that assumption there is a naming function under which the init volume names a secret other than the one built |
| `MySql.DataVolumeClaimsBuiltPvc` | src/main/java/com/tsystemsmms/cmcc/cmccoperator/components/generic/MySQLComponent.java:57-65 | if the claim builder names a claim after its first argument, the data volume claims exactly the claim the resource list starts with |
| `MySql.Render` | src/main/java/com/tsystemsmms/cmcc/cmccoperator/components/generic/MySQLComponent.java:196-199 | each statement renders to a non-empty line |
| `MySql.EntryStatements` | src/main/java/com/tsystemsmms/cmcc/cmccoperator/components/generic/MySQLComponent.java:196-199 | four statements per user: CREATE SCHEMA, CREATE USER, ALTER USER, GRANT, all for that entry's username, schema and password |
| `MySql.NonRootEntries` | src/main/java/com/tsystemsmms/cmcc/cmccoperator/components/generic/MySQLComponent.java:192-195 | an entry is kept iff it is not root, so every non-root entry is kept; none are kept iff every entry is root |
| `MySql.NonRootEntriesSnoc` | src/main/java/com/tsystemsmms/cmcc/cmccoperator/components/generic/MySQLComponent.java:192-195 | the filter keeps table order: one more entry is appended to the kept ones unless it is root |
| `MySql.StatementsFor` | src/main/java/com/tsystemsmms/cmcc/cmccoperator/components/generic/MySQLComponent.java:192-200 | the statements number four per user |
| `MySql.StatementsForShape` | src/main/java/com/tsystemsmms/cmcc/cmccoperator/components/generic/MySQLComponent.java:192-200 | the k-th user's four statements sit at positions 4k to 4k+3, in order |
| `MySql.UsersScriptSnoc` | src/main/java/com/tsystemsmms/cmcc/cmccoperator/components/generic/MySQLComponent.java:192-200 | one more entry: a root entry adds nothing to the script, any other appends its four statements |
| `MySql.UserAppended` | src/main/java/com/tsystemsmms/cmcc/cmccoperator/components/generic/MySQLComponent.java:196-199 | appending one user's four formatted lines gives the script of the table extended by that user |
| `MySql.UsersScriptEmptyIffAllRoot` | src/main/java/com/tsystemsmms/cmcc/cmccoperator/components/generic/MySQLComponent.java:191-202 | the script is empty iff every entry is root, an empty table included |
| `MySql.UsersScriptBlocks` | src/main/java/com/tsystemsmms/cmcc/cmccoperator/components/generic/MySQLComponent.java:192-200 | the script string is the non-root entries' four-line blocks concatenated in table order, with nothing else in it |
| `MySql.RootSecretSkipped` | src/main/java/com/tsystemsmms/cmcc/cmccoperator/components/generic/MySQLComponent.java:194-195 | a root secret as this component requests it adds nothing to the script |
| `MySql.CreateUsersFromClientSecrets` | src/main/java/com/tsystemsmms/cmcc/cmccoperator/components/generic/MySQLComponent.java:184-203 | a null table fails with the configuration error "No MySQL users to be created"; an entry without a username fails with a null dereference; otherwise the result has exactly the key create-default-users.sql, holding the script |

## Behaviour worth knowing

- Base resource names can collide. A spec without a name takes its type as
  spec name, so (type "a", no name) and (type "b", name "a") get the same
  base resource name, whatever `concatOptional` does
  (`Components.DistinctTypesCanShareSpecName`). Under the assumed
  `concatOptional`, joining with `-` gives further collisions, such as name
  "a-b" without a kind against name "a" with kind "b"
  (`Components.DistinctIdentitiesCanShareBaseName`). Object names come from
  `getResourceNameFor`, which is not part of this model.
- The deprecated volume sizes are never merged. `update` leaves them at the
  base's values (`Spec.DeprecatedSizesNotMerged`), and the copy constructor
  leaves them unset (`Spec.Copy`).
- The only configuration error in the init script is a null JDBC secret
  table. An empty table, or one holding only root, gives an empty script
  (`MySql.CreateUsersFromClientSecrets`, `MySql.UsersScriptEmptyIffAllRoot`).
- `update` never compares identities. The comparison happens in
  `updateComponentSpec`, before the merge (`Components.UpdateComponentSpec`).
- `update` never merges `schemas`, so schemas given in a later spec never
  reach a component (`Components.UpdateComponentSpecAddsNoSchemas`). Only the
  schemas of the spec the component was created from, plus the defaults
  that `setDefaultSchemas` fills in for missing keys, reach its schema map.
- A component's spec is always its own copy, whose extra map is freshly
  created. So the null test in `buildExtraConfigMaps` never fires, and the
  model has no null extra map.

## Left out

- The Kubernetes object model, fabric8 builders and `KubernetesClient`. Only
  the names, ports, volumes, mounts, probe thresholds, storage class and
  secret data are modelled. Quantities are strings ("8Gi"), not parsed.
- `buildStatefulSet`, `buildDeployment`, `buildContainers`,
  `buildContainersWithEnv`, `getInitContainers`, `getContainerWaitForIor` and
  `getTerminationGracePeriodSeconds`. These assemble the pod template with no
  rule worth stating; `MySql.BuildResources` takes the stateful set, service and
  claim from `MySql.Builders`.
- `getSelectorLabels`, `getCmcc`, `getSpec` and `getDefaults`. The selector
  labels come from the target state. The accessors become fields of
  `Components.TargetState`.
- The target state's secret loading, generation and persistence
  (`getClientSecretRef`, `loadOrBuildSecret`), its naming and its cluster
  queries. These are external state; `MySql.RequestRequiredResources`
  returns the request it would make.
- `ImageSpec.update`, `ResourceMgmt.merge`, `Milestone.compareTo`,
  `ComponentCollection.equalsSpec`, `EnvVarSet` and `Utils`. Their source is
  not part of this model. They are opaque function values, or definitions
  stated as assumptions above.
- The order of the JDBC secret table's `HashMap` values. It is unspecified,
  so the model takes the values as a sequence in whatever order iteration
  yields.
- Null fields of the overlay spec passed to `update`; the model's maps, lists
  and records are never null. Depending on the field, Java behaves in one of
  three ways:
  - Null annotations or args are copied as they are (ComponentSpec.java
    lines 73-74), which leaves the merged spec's field null.
  - A null env, extra or volumeSize throws a NullPointerException in
    `addAll`, `putAll` or `getVolumeSize().getData()` (lines 75, 76 and 84).
  - A null image is handed to `ImageSpec.update`, whose code is not part of
    this model.
- A null image in a component's own spec. That spec is always a copy, whose
  image starts as `new ImageSpec()`, so the `requireNonNullElse` fallback at
  AbstractComponent.java lines 128 and 157 is never taken.
- A null default storage class. `buildPvc` would throw a
  NullPointerException on `sc.isEmpty()`.
- Sharing of the overlay's `resources` object in `update`. When the base has
  no resources, `update` takes the overlay's object itself (ComponentSpec.java
  lines 80-81), so a later `merge` into the spec (line 83) also changes the
  overlay; the copy constructor is one such case. Logging, Lombok and Jackson
  annotations are also left out. The model is pure, so aliasing cannot show.
- Which secret the target state stores for a credential request
  (`getClientSecretRef`). `MySql.EnvVarsReadRootPassword` relates the env
  variable to the request only through the shared "root" suffix, not through
  the name of the stored secret.
- The shell text of the probe command. It is the constant
  `AdminStatusCommand`.
- `MySql.Render`: its contract only says that each line is non-empty. The
  statement templates themselves are stated by its body, under the assumed
  behaviour of `Utils.format`.
- `Spec.Update`: for the image and the resources it states only that the
  result is what `ImageSpec.update` and `ResourceMgmt.merge` return. No
  field-by-field image merge is claimed, because that code is not part of
  this model.
