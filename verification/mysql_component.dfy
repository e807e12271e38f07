/**
 * The MySQL (MariaDB) component: a stateful set with a data claim, a
 * service, an optional secret carrying the spec's extra data, and the
 * initialisation script that creates one schema and one user per JDBC
 * client secret.
 *
 * Building the stateful set, the service and the claim itself is done by
 * shared code that is not part of this model; it arrives as `Builders`.
 */
module MySql {
  import opened Common
  import opened Spec
  import opened Kube
  import opened Components

  const RootUsername := "root"

  /** The fixed image, whatever the spec or the defaults say. */
  const MariaDbImage := "docker.io/mariadb:10.7"

  /** Key of the generated script in the init data. */
  const UsersScriptKey := "create-default-users.sql"

  const NoUsersMessage := "No MySQL users to be created"

  /** Keys of a client secret's data; the constants' values are assumed. */
  const UsernameKey := "username"
  const PasswordKey := "password"
  const SchemaKey := "schema"

  /** Shared builders that are not part of this model. */
  datatype Builders = Builders(
    persistentVolumeClaim: (string, JString) -> PersistentVolumeClaim,  // getPersistentVolumeClaim(name, size)
    dataVolumeSize: Component -> JString,                                // getVolumeSize(VolumeSize::getData)
    statefulSet: Component -> StatefulSet,                               // buildStatefulSet
    service: Component -> Service)                                       // buildService

  /** `getImage`: the constant image; spec and defaults are ignored. */
  function GetImage(c: Component, ts: TargetState): (r: string)
    ensures r == MariaDbImage
  {
    MariaDbImage
  }

  /** The image neither follows an instance image nor the defaults. */
  lemma ImageIgnoresSpecAndDefaults(c1: Component, ts1: TargetState, c2: Component, ts2: TargetState)
    ensures GetImage(c1, ts1) == GetImage(c2, ts2)
  {
  }

  /** The data volume and claim are named after the component. */
  function DataName(c: Component, ts: TargetState): string {
    ts.resourceNameFor(c, [])
  }

  /** The name of the volume holding the init scripts. */
  function InitName(c: Component, ts: TargetState): string {
    ts.resourceNameFor(c, ["init"])
  }

  /** The secret the init volume is filled from. */
  function InitSecretName(c: Component, ts: TargetState): string {
    ts.resourceNameFor(c, ["extra"])
  }

  /** The name given to the extra secret when it is built. */
  function ExtraSecretName(c: Component, ts: TargetState): string {
    ts.resourceNameFor(c, []) + "-extra"
  }

  /** `getContainerPorts`: the database port. */
  function ContainerPorts(): (r: seq<ContainerPort>)
    ensures |r| == 1 && r[0].name == "mysql" && r[0].containerPort == 3306
  {
    [ContainerPort("mysql", 3306)]
  }

  /** `getServicePorts`: "ior" on 3306, forwarded to the container port named "mysql". */
  function ServicePorts(): (r: seq<ServicePort>)
    ensures |r| == 1 && r[0].name == "ior" && r[0].port == 3306 && r[0].targetPort == "mysql"
    ensures PortsResolve(r, ContainerPorts())
  {
    var r := [ServicePort("ior", 3306, "mysql")];
    assert ContainerPorts()[0].name == r[0].targetPort;
    r
  }

  /** `getStartupProbe`: the administrative status command, allowing 300 failures 10 s apart. */
  function StartupProbe(): (r: Probe)
    ensures r.action == AdminStatusCommand
    ensures r.failureThreshold == 300 && r.periodSeconds == 10 && r.initialDelaySeconds == 10
    ensures r.successThreshold == 1 && r.timeoutSeconds == 10
    ensures r.initialDelaySeconds + r.failureThreshold * r.periodSeconds >= 3000
  {
    Probe(AdminStatusCommand, 300, 10, 10, 1, 10)
  }

  /** `getLivenessProbe`: the startup probe. */
  function LivenessProbe(): (r: Probe)
    ensures r == StartupProbe()
  {
    StartupProbe()
  }

  /** `getReadinessProbe`: the startup probe. */
  function ReadinessProbe(): (r: Probe)
    ensures r == StartupProbe()
  {
    StartupProbe()
  }

  /** `getEnvVars`: the root password, read from the key "password" of the component's root secret. */
  function EnvVars(c: Component, ts: TargetState): (r: seq<EnvVar>)
    ensures |r| == 1 && r[0].name == "MYSQL_ROOT_PASSWORD"
    ensures r[0].value == SecretKeyRef(ts.resourceNameFor(c, [RootUsername]), "password")
  {
    [EnvVar("MYSQL_ROOT_PASSWORD", SecretKeyRef(ts.resourceNameFor(c, [RootUsername]), "password"))]
  }

  /** A credential request: the secret reference's kind and name, and the username its data holds. */
  datatype SecretRequest = SecretRequest(refKind: JString, refName: string, username: string)

  /** `requestRequiredResources`: the root credential, under the component's type. */
  function RequestRequiredResources(c: Component): (r: seq<SecretRequest>)
    ensures |r| == 1
    ensures r[0].refKind == c.spec.componentType && r[0].refName == RootUsername && r[0].username == RootUsername
  {
    [SecretRequest(c.spec.componentType, RootUsername, RootUsername)]
  }

  /** The data of the root secret, for a generated password. */
  function RootSecretData(password: string): (d: map<string, string>)
    ensures d.Keys == {PasswordKey, UsernameKey}
    ensures d[UsernameKey] == RootUsername && d[PasswordKey] == password
  {
    map[PasswordKey := password, UsernameKey := RootUsername]
  }

  /**
   * The password variable reads the key under which the root secret stores
   * the password, and its secret name carries the same "root" suffix as the
   * credential the component requests. Which secret the target state stores
   * for that request is not part of this model.
   */
  lemma EnvVarsReadRootPassword(c: Component, ts: TargetState, password: string)
    ensures var ref := EnvVars(c, ts)[0].value;
      && ref.secretName == ts.resourceNameFor(c, [RequestRequiredResources(c)[0].refName])
      && ref.key in RootSecretData(password)
      && RootSecretData(password)[ref.key] == password
  {
  }

  /**
   * `getVolumes`: the default volumes, then the data claim, the init secret
   * and the socket directory.
   */
  function Volumes(c: Component, ts: TargetState): (r: seq<Volume>)
    ensures |r| == 5
    ensures r[..2] == BaseVolumes()
    ensures r[2] == Volume(DataName(c, ts), PersistentVolumeClaimSource(DataName(c, ts)))
    ensures r[3] == Volume(InitName(c, ts), SecretSource(InitSecretName(c, ts), 420))
    ensures r[4] == Volume("run-mysql", EmptyDir)
  {
    BaseVolumes() + [
      Volume(DataName(c, ts), PersistentVolumeClaimSource(DataName(c, ts))),
      Volume(InitName(c, ts), SecretSource(InitSecretName(c, ts), 420)),
      Volume("run-mysql", EmptyDir)]
  }

  /** `getVolumeMounts`: the default mounts, then data, init scripts and socket directory. */
  function VolumeMounts(c: Component, ts: TargetState): (r: seq<VolumeMount>)
    ensures |r| == 5
    ensures r[..2] == BaseVolumeMounts()
    ensures r[2] == VolumeMount(DataName(c, ts), "/var/lib/mysql")
    ensures r[3] == VolumeMount(InitName(c, ts), "/docker-entrypoint-initdb.d")
    ensures r[4] == VolumeMount("run-mysql", "/run/mysqld")
  {
    BaseVolumeMounts() + [
      VolumeMount(DataName(c, ts), "/var/lib/mysql"),
      VolumeMount(InitName(c, ts), "/docker-entrypoint-initdb.d"),
      VolumeMount("run-mysql", "/run/mysqld")]
  }

  /** Mount i uses volume i, so every mount of the main container names a declared volume. */
  lemma MountsMatchVolumes(c: Component, ts: TargetState)
    ensures |VolumeMounts(c, ts)| == |Volumes(c, ts)|
    ensures forall i :: 0 <= i < |Volumes(c, ts)| ==> VolumeMounts(c, ts)[i].name == Volumes(c, ts)[i].name
    ensures MountsResolve(Volumes(c, ts), VolumeMounts(c, ts))
  {
    var vs := Volumes(c, ts);
    var ms := VolumeMounts(c, ts);
    assert vs[0].name == "tmp" && vs[1].name == "var-tmp";
    assert ms[0].name == "tmp" && ms[1].name == "var-tmp";
    assert forall i :: 0 <= i < |vs| ==> ms[i].name == vs[i].name;
    assert forall i :: 0 <= i < |vs| ==> vs[i].name in VolumeNames(vs);
  }

  /** `buildExtraConfigMaps`: no secret for empty extra data, else one Opaque secret holding exactly that data. */
  function BuildExtraConfigMaps(c: Component, ts: TargetState): (r: seq<Resource>)
    ensures |r| <= 1
    ensures |r| == 0 <==> c.spec.extra == map[]
    ensures |r| == 1 ==> r[0].SecretResource? && r[0].secret.name == ExtraSecretName(c, ts)
    ensures |r| == 1 ==> r[0].secret.secretType == "Opaque" && r[0].secret.stringData == c.spec.extra
  {
    if |c.spec.extra| == 0 then []
    else [SecretResource(Secret(ExtraSecretName(c, ts), "Opaque", c.spec.extra))]
  }

  /** `buildResources`: claim, stateful set and service, then the extra secret if there is one. */
  function BuildResources(c: Component, ts: TargetState, builders: Builders): (r: seq<Resource>)
    ensures |r| == 3 || |r| == 4
    ensures |r| == 4 <==> c.spec.extra != map[]
    ensures r[0] == PvcResource(builders.persistentVolumeClaim(DataName(c, ts), builders.dataVolumeSize(c)))
    ensures r[1] == StatefulSetResource(builders.statefulSet(c))
    ensures r[2] == ServiceResource(builders.service(c))
    ensures r[3..] == BuildExtraConfigMaps(c, ts)
  {
    [PvcResource(builders.persistentVolumeClaim(DataName(c, ts), builders.dataVolumeSize(c))),
     StatefulSetResource(builders.statefulSet(c)),
     ServiceResource(builders.service(c))]
    + BuildExtraConfigMaps(c, ts)
  }

  /** What the model needs of `getResourceNameFor` for the two secret names to meet: suffixes join with "-". */
  ghost predicate SuffixJoinsWithHyphen(ts: TargetState) {
    forall c, s :: ts.resourceNameFor(c, [s]) == ts.resourceNameFor(c, []) + "-" + s
  }

  /**
   * When suffixes join with "-", the init volume reads exactly the secret
   * buildResources emits, and that secret is emitted iff extra is non-empty.
   */
  lemma InitVolumeReadsExtraSecret(c: Component, ts: TargetState, builders: Builders)
    requires SuffixJoinsWithHyphen(ts)
    ensures Volumes(c, ts)[3].source.secretName == ExtraSecretName(c, ts)
    ensures c.spec.extra != map[] ==> BuildResources(c, ts, builders)[3].secret.name == Volumes(c, ts)[3].source.secretName
    ensures c.spec.extra == map[] ==> forall i :: 0 <= i < |BuildResources(c, ts, builders)| ==> !BuildResources(c, ts, builders)[i].SecretResource?
  {
    var rs := BuildResources(c, ts, builders);
    if c.spec.extra != map[] {
      assert rs[3] == BuildExtraConfigMaps(c, ts)[0];
    }
  }

  /** Without that assumption the two names need not agree. */
  lemma InitVolumeMayMissExtraSecret(c: Component)
    ensures exists ts: TargetState :: Volumes(c, ts)[3].source.secretName != ExtraSecretName(c, ts)
  {
    var ts := TargetState(None, ComponentDefaults(None, ""),
      (x: Component, s: seq<string>) => if |s| == 0 then "db" else "db_" + s[0],
      (n: string) => false, None);
    assert InitSecretName(c, ts) == "db_extra";
    assert ExtraSecretName(c, ts) == "db-extra";
    assert "db_extra"[2] != "db-extra"[2];
  }

  /**
   * The data volume claims the claim buildResources emits, provided the
   * shared builder names a claim after its first argument.
   */
  lemma DataVolumeClaimsBuiltPvc(c: Component, ts: TargetState, builders: Builders)
    requires forall n, size :: builders.persistentVolumeClaim(n, size).name == n
    ensures Volumes(c, ts)[2].source.claimName == BuildResources(c, ts, builders)[0].pvc.name
  {
  }

  // ---------------------------------------------------------------------
  // createUsersFromClientSecrets

  /** One statement of the init script, by the values it interpolates. */
  datatype Statement =
    | CreateSchema(schema: JString)
    | CreateUser(user: string, password: JString)
    | AlterUser(user: string, password: JString)
    | GrantAll(schema: JString, user: string)

  /**
   * The statement's text. `Utils.format` is assumed to put its arguments in
   * place of the `{}` markers in order, a null argument printing as "null".
   */
  function Render(s: Statement): (r: string)
    ensures |r| > 0
  {
    match s
    case CreateSchema(schema) =>
      "CREATE SCHEMA IF NOT EXISTS " + Str(schema) + " CHARACTER SET utf8mb4 COLLATE utf8mb4_bin;\n"
    case CreateUser(user, password) =>
      "CREATE USER IF NOT EXISTS '" + user + "'@'%' IDENTIFIED BY '" + Str(password) + "';\n"
    case AlterUser(user, password) =>
      "ALTER USER '" + user + "'@'%' IDENTIFIED BY '" + Str(password) + "';\n"
    case GrantAll(schema, user) =>
      "GRANT ALL PRIVILEGES ON " + Str(schema) + ".* TO '" + user + "'@'%';\n"
  }

  /** The texts `f` gives the elements of `xs`, concatenated in order. */
  function ConcatMap<T>(xs: seq<T>, f: T -> string): string {
    if |xs| == 0 then "" else ConcatMap(xs[..|xs| - 1], f) + f(xs[|xs| - 1])
  }

  lemma {:induction false} ConcatMapAppend<T>(a: seq<T>, b: seq<T>, f: T -> string)
    ensures ConcatMap(a + b, f) == ConcatMap(a, f) + ConcatMap(b, f)
    decreases |b|
  {
    if |b| == 0 {
      assert a + b == a;
    } else {
      var init := b[..|b| - 1];
      var ab := a + b;
      assert ab[..|ab| - 1] == a + init;
      assert ab[|ab| - 1] == b[|b| - 1];
      ConcatMapAppend(a, init, f);
    }
  }

  lemma ConcatMapFour<T>(e: seq<T>, f: T -> string)
    requires |e| == 4
    ensures ConcatMap(e, f) == f(e[0]) + f(e[1]) + f(e[2]) + f(e[3])
  {
    assert e[..1][..0] == [];
    assert ConcatMap(e[..1], f) == f(e[0]);
    assert e[..2][..1] == e[..1];
    assert ConcatMap(e[..2], f) == f(e[0]) + f(e[1]);
    assert e[..3][..2] == e[..2];
    assert ConcatMap(e[..3], f) == f(e[0]) + f(e[1]) + f(e[2]);
    assert e[..4][..3] == e[..3] && e[..4] == e;
  }

  /** The statements' texts, concatenated: the script. */
  function SqlText(stmts: seq<Statement>): string {
    ConcatMap(stmts, Render)
  }

  lemma SqlTextNonEmpty(stmts: seq<Statement>)
    requires |stmts| > 0
    ensures |SqlText(stmts)| > 0
  {
    assert SqlText(stmts) == ConcatMap(stmts[..|stmts| - 1], Render) + Render(stmts[|stmts| - 1]);
  }

  /** `Map.get`: the value, or null for a missing key. */
  function Lookup(data: map<string, string>, key: string): JString {
    if key in data then Some(data[key]) else None
  }

  predicate HasUsername(cs: ClientSecret) {
    UsernameKey in cs.stringData
  }

  predicate AllHaveUsernames(secrets: seq<ClientSecret>) {
    forall i :: 0 <= i < |secrets| ==> HasUsername(secrets[i])
  }

  predicate IsRoot(cs: ClientSecret)
    requires HasUsername(cs)
  {
    cs.stringData[UsernameKey] == RootUsername
  }

  /** The four statements for one user, in script order, all about that user and schema. */
  function EntryStatements(cs: ClientSecret): (r: seq<Statement>)
    requires HasUsername(cs)
    ensures |r| == 4
    ensures r[0].CreateSchema? && r[1].CreateUser? && r[2].AlterUser? && r[3].GrantAll?
    ensures r[1].user == r[2].user == r[3].user == cs.stringData[UsernameKey]
    ensures r[0].schema == r[3].schema == Lookup(cs.stringData, SchemaKey)
    ensures r[1].password == r[2].password == Lookup(cs.stringData, PasswordKey)
  {
    var user := cs.stringData[UsernameKey];
    var schema := Lookup(cs.stringData, SchemaKey);
    var password := Lookup(cs.stringData, PasswordKey);
    [CreateSchema(schema), CreateUser(user, password), AlterUser(user, password), GrantAll(schema, user)]
  }

  /** The entries that are not the root user, in order. */
  function NonRootEntries(secrets: seq<ClientSecret>): (r: seq<ClientSecret>)
    requires AllHaveUsernames(secrets)
    ensures |r| <= |secrets|
    ensures AllHaveUsernames(r)
    ensures forall i :: 0 <= i < |r| ==> !IsRoot(r[i])
    ensures (forall i :: 0 <= i < |secrets| ==> IsRoot(secrets[i])) <==> r == []
    // exactly the non-root entries are kept
    ensures forall i :: 0 <= i < |r| ==> r[i] in secrets
    ensures forall i :: 0 <= i < |secrets| && !IsRoot(secrets[i]) ==> secrets[i] in r
  {
    if |secrets| == 0 then []
    else
      var init := secrets[..|secrets| - 1];
      var last := secrets[|secrets| - 1];
      assert forall i :: 0 <= i < |init| ==> init[i] == secrets[i];
      assert secrets == init + [last];
      NonRootEntries(init) + (if IsRoot(last) then [] else [last])
  }

  /**
   * The filter keeps order: one more entry is appended to the kept entries
   * when it is not root, and dropped when it is.
   */
  lemma NonRootEntriesSnoc(secrets: seq<ClientSecret>, cs: ClientSecret)
    requires AllHaveUsernames(secrets) && HasUsername(cs)
    ensures AllHaveUsernames(secrets + [cs])
    ensures NonRootEntries(secrets + [cs]) == NonRootEntries(secrets) + (if IsRoot(cs) then [] else [cs])
  {
    var all := secrets + [cs];
    assert all[..|all| - 1] == secrets;
    assert all[|all| - 1] == cs;
  }

  /** The statements for a list of users, four per user. */
  function StatementsFor(users: seq<ClientSecret>): (r: seq<Statement>)
    requires AllHaveUsernames(users)
    ensures |r| == 4 * |users|
  {
    if |users| == 0 then []
    else StatementsFor(users[..|users| - 1]) + EntryStatements(users[|users| - 1])
  }

  /** The k-th user's four statements sit at positions 4k to 4k+3. */
  lemma {:induction false} StatementsForShape(users: seq<ClientSecret>, k: int)
    requires AllHaveUsernames(users)
    requires 0 <= k < |users|
    ensures StatementsFor(users)[4 * k..4 * k + 4] == EntryStatements(users[k])
    decreases |users|
  {
    var init := users[..|users| - 1];
    assert StatementsFor(users) == StatementsFor(init) + EntryStatements(users[|users| - 1]);
    if k < |users| - 1 {
      StatementsForShape(init, k);
      assert init[k] == users[k];
    }
  }

  /** The script for a secret table (in iteration order) whose entries all have a username. */
  function UsersScript(secrets: seq<ClientSecret>): string
    requires AllHaveUsernames(secrets)
  {
    SqlText(StatementsFor(NonRootEntries(secrets)))
  }

  lemma SqlTextOfEntry(cs: ClientSecret)
    requires HasUsername(cs)
    ensures var e := EntryStatements(cs);
      SqlText(e) == Render(e[0]) + Render(e[1]) + Render(e[2]) + Render(e[3])
  {
    ConcatMapFour(EntryStatements(cs), Render);
  }

  /** One more entry: a root entry adds nothing, any other adds its four statements at the end. */
  lemma {:induction false} UsersScriptSnoc(secrets: seq<ClientSecret>, cs: ClientSecret)
    requires AllHaveUsernames(secrets) && HasUsername(cs)
    ensures AllHaveUsernames(secrets + [cs])
    ensures IsRoot(cs) ==> UsersScript(secrets + [cs]) == UsersScript(secrets)
    ensures !IsRoot(cs) ==> UsersScript(secrets + [cs]) == UsersScript(secrets) + SqlText(EntryStatements(cs))
  {
    var all := secrets + [cs];
    assert all[..|all| - 1] == secrets;
    assert all[|all| - 1] == cs;
    var users := NonRootEntries(secrets);
    if !IsRoot(cs) {
      assert NonRootEntries(all) == users + [cs];
      assert (users + [cs])[..|users|] == users;
      assert StatementsFor(users + [cs]) == StatementsFor(users) + EntryStatements(cs);
      ConcatMapAppend(StatementsFor(users), EntryStatements(cs), Render);
    } else {
      assert NonRootEntries(all) == users + [];
      assert users + [] == users;
    }
  }

  /** The script is empty exactly when every entry is root (in particular for an empty table). */
  lemma {:induction false} UsersScriptEmptyIffAllRoot(secrets: seq<ClientSecret>)
    requires AllHaveUsernames(secrets)
    ensures UsersScript(secrets) == "" <==> forall i :: 0 <= i < |secrets| ==> IsRoot(secrets[i])
  {
    var users := NonRootEntries(secrets);
    var stmts := StatementsFor(users);
    if users == [] {
      assert stmts == [];
      assert SqlText(stmts) == "";
    } else {
      SqlTextNonEmpty(stmts);
      assert |UsersScript(secrets)| > 0;
    }
  }

  /** The four lines one entry contributes to the script (nothing for an entry without a username). */
  function EntryText(cs: ClientSecret): string {
    if HasUsername(cs) then SqlText(EntryStatements(cs)) else ""
  }

  lemma {:induction false} StatementsForText(users: seq<ClientSecret>)
    requires AllHaveUsernames(users)
    ensures SqlText(StatementsFor(users)) == ConcatMap(users, EntryText)
    decreases |users|
  {
    if |users| > 0 {
      var init := users[..|users| - 1];
      var last := users[|users| - 1];
      assert forall i :: 0 <= i < |init| ==> init[i] == users[i];
      StatementsForText(init);
      ConcatMapAppend(StatementsFor(init), EntryStatements(last), Render);
    }
  }

  /**
   * The script is the blocks of the non-root entries, in table order, one
   * block of four lines per entry and nothing else.
   */
  lemma UsersScriptBlocks(secrets: seq<ClientSecret>)
    requires AllHaveUsernames(secrets)
    ensures UsersScript(secrets) == ConcatMap(NonRootEntries(secrets), EntryText)
  {
    StatementsForText(NonRootEntries(secrets));
  }

  /** The root credential this component requests never gets a statement of its own. */
  lemma RootSecretSkipped(secrets: seq<ClientSecret>, password: string)
    requires AllHaveUsernames(secrets)
    ensures AllHaveUsernames(secrets + [ClientSecret(RootSecretData(password))])
    ensures UsersScript(secrets + [ClientSecret(RootSecretData(password))]) == UsersScript(secrets)
  {
    UsersScriptSnoc(secrets, ClientSecret(RootSecretData(password)));
  }

  /** Appending one user's four statement texts extends the script by that user. */
  lemma UserAppended(prefix: seq<ClientSecret>, cs: ClientSecret, sql: string)
    requires AllHaveUsernames(prefix) && HasUsername(cs) && !IsRoot(cs)
    requires sql == UsersScript(prefix)
    ensures AllHaveUsernames(prefix + [cs])
    ensures var data := cs.stringData;
      var user := data[UsernameKey];
      var schema := Lookup(data, SchemaKey);
      var password := Lookup(data, PasswordKey);
      sql + Render(CreateSchema(schema)) + Render(CreateUser(user, password))
        + Render(AlterUser(user, password)) + Render(GrantAll(schema, user))
      == UsersScript(prefix + [cs])
  {
    UsersScriptSnoc(prefix, cs);
    var e := EntryStatements(cs);
    SqlTextOfEntry(cs);
    AppendFour(sql, Render(e[0]), Render(e[1]), Render(e[2]), Render(e[3]));
  }

  /** Regrouping the four appended lines, proved apart from the script terms. */
  lemma AppendFour<T>(s: seq<T>, a: seq<T>, b: seq<T>, c: seq<T>, d: seq<T>)
    ensures s + a + b + c + d == s + (a + b + c + d)
  {
  }

  /**
   * `createUsersFromClientSecrets`: fails with a configuration error when the
   * JDBC secret table is null (an empty table is fine and gives an empty
   * script), fails on an entry without a username, and otherwise returns the
   * single init file holding the script.
   */
  method CreateUsersFromClientSecrets(ts: TargetState) returns (r: Result<map<string, string>, Error>)
    ensures ts.jdbcClientSecrets.None? ==> r == Failure(ConfigError(NoUsersMessage))
    ensures ts.jdbcClientSecrets.Some? && !AllHaveUsernames(ts.jdbcClientSecrets.value) ==>
      r.Failure? && r.error.NullDereference?
    ensures ts.jdbcClientSecrets.Some? && AllHaveUsernames(ts.jdbcClientSecrets.value) ==>
      r == Success(map[UsersScriptKey := UsersScript(ts.jdbcClientSecrets.value)])
  {
    if ts.jdbcClientSecrets.None? {
      return Failure(ConfigError(NoUsersMessage));
    }
    var secrets := ts.jdbcClientSecrets.value;
    var sql := "";
    var i := 0;
    assert secrets[..0] == [];
    assert UsersScript([]) == "" by {
      assert NonRootEntries([]) == [] && StatementsFor([]) == [];
    }
    while i < |secrets|
      invariant 0 <= i <= |secrets|
      invariant AllHaveUsernames(secrets[..i])
      invariant sql == UsersScript(secrets[..i])
    {
      var data := secrets[i].stringData;
      if UsernameKey !in data {
        assert !HasUsername(secrets[i]);
        return Failure(NullDereference(UsernameKey));
      }
      assert secrets[..i + 1] == secrets[..i] + [secrets[i]];
      UsersScriptSnoc(secrets[..i], secrets[i]);
      if data[UsernameKey] != RootUsername {
        var user := data[UsernameKey];
        var schema := Lookup(data, SchemaKey);
        var password := Lookup(data, PasswordKey);
        ghost var before := sql;
        sql := sql + Render(CreateSchema(schema));
        sql := sql + Render(CreateUser(user, password));
        sql := sql + Render(AlterUser(user, password));
        sql := sql + Render(GrantAll(schema, user));
        UserAppended(secrets[..i], secrets[i], before);
      }
      i := i + 1;
    }
    assert secrets[..i] == secrets;
    return Success(map[UsersScriptKey := sql]);
  }
}
