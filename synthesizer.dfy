/**
 * The manifest synthesizer (scripts/generate_kamal_config.py): builds the
 * deployment manifest from the provisioning output, the workflow settings
 * and the partitioner's custom variables and custom secret names.
 */
module Synthesizer {
  import opened Wrappers
  import opened OrderedMaps
  import opened Partitioner

  /** The provisioning output: host addresses of the allocated machines. */
  datatype Provisioning = Provisioning(webIp: string, workerIps: seq<string>, dbIp: string, dbInternalIp: string)

  /** The workflow inputs read from the environment; `domain` is taken before stripping. */
  datatype Settings = Settings(
    workersEnabled: bool,
    workersCmd: string,
    dbEnabled: bool,
    domain: string,
    repoName: string,
    repoFull: string,
    repoOwner: string
  )

  datatype Registry = Registry(server: string, username: string, password: seq<string>)
  datatype Ssh = Ssh(user: string, keys: seq<string>)
  datatype WebGroup = WebGroup(hosts: seq<string>)
  datatype WorkerGroup = WorkerGroup(hosts: seq<string>, cmd: string, proxy: bool)
  /** `servers`: the `workers` key exists only when `workers` is `Some`. */
  datatype Servers = Servers(web: WebGroup, workers: Option<WorkerGroup>)
  datatype Healthcheck = Healthcheck(path: string, interval: int, timeout: int)
  datatype Proxy = Proxy(host: string, appPort: int, forwardHeaders: bool, ssl: bool, healthcheck: Healthcheck)
  /** `env`: clear values by name, and the names of secrets; the `secret` key exists only when `Some`. */
  datatype Env = Env(clear: OMap<string>, secret: Option<seq<string>>)
  datatype AccessoryEnv = AccessoryEnv(clear: OMap<string>, secret: seq<string>)
  datatype DbAccessory = DbAccessory(
    image: string,
    host: string,
    port: string,
    cmd: string,
    env: AccessoryEnv,
    directories: seq<string>
  )
  datatype Accessories = Accessories(db: DbAccessory)
  datatype Builder = Builder(arch: string)

  /** The `config` tree; its fields are in the order of the source's keys, and `accessories` comes last. */
  datatype Config = Config(
    service: string,
    image: string,
    registry: Registry,
    ssh: Ssh,
    servers: Servers,
    proxy: Proxy,
    env: Env,
    volumes: seq<string>,
    builder: Builder,
    readinessDelay: int,
    deployTimeout: int,
    drainTimeout: int,
    accessories: Option<Accessories>
  )

  const RegistryServer: string := "ghcr.io"
  const BlobStoragePath: string := "/data/blobs"
  const WildcardDnsSuffix: string := ".nip.io"

  /** Python's `str.isspace`: the characters `str.strip()` removes. */
  predicate IsSpace(c: char)
  {
    || ('\t' <= c <= '\r')
    || ('\U{1C}' <= c <= '\U{20}')
    || c == '\U{85}' || c == '\U{A0}' || c == '\U{1680}'
    || ('\U{2000}' <= c <= '\U{200A}')
    || c == '\U{2028}' || c == '\U{2029}' || c == '\U{202F}' || c == '\U{205F}' || c == '\U{3000}'
  }

  predicate AllSpace(s: string)
  {
    forall i :: 0 <= i < |s| ==> IsSpace(s[i])
  }

  /** `s.lstrip()`: the suffix of `s` left after its leading whitespace. */
  function TrimStart(s: string): (r: string)
    ensures |r| <= |s| && r == s[|s| - |r|..]
    ensures AllSpace(s[..|s| - |r|])
    ensures r != [] ==> !IsSpace(r[0])
  {
    if s != [] && IsSpace(s[0]) then
      var r := TrimStart(s[1..]);
      assert s[..|s| - |r|] == [s[0]] + s[1..][..|s[1..]| - |r|];
      r
    else s
  }

  /** `s.rstrip()`: the prefix of `s` left before its trailing whitespace. */
  function TrimEnd(s: string): (r: string)
    ensures |r| <= |s| && r == s[..|r|]
    ensures AllSpace(s[|r|..])
    ensures r != [] ==> !IsSpace(r[|r| - 1])
  {
    if s != [] && IsSpace(s[|s| - 1]) then
      var r := TrimEnd(s[..|s| - 1]);
      assert s[|r|..] == s[..|s| - 1][|r|..] + [s[|s| - 1]];
      r
    else s
  }

  /** `s.strip()` */
  function Strip(s: string): string
  {
    TrimEnd(TrimStart(s))
  }

  /**
   * `strip` removes only whitespace, from both ends, and leaves a string
   * that neither starts nor ends with whitespace; it is empty exactly when
   * `s` is all whitespace.
   */
  lemma StripSpec(s: string)
    ensures exists i, j :: 0 <= i <= j <= |s| && Strip(s) == s[i..j] && AllSpace(s[..i]) && AllSpace(s[j..])
    ensures Strip(s) != [] ==> !IsSpace(Strip(s)[0]) && !IsSpace(Strip(s)[|Strip(s)| - 1])
    ensures Strip(s) == [] <==> AllSpace(s)
  {
    var i, j := StripBounds(s);
    StripEnds(s);
    StripEmptyIffAllSpace(s, i, j);
  }

  lemma StripEnds(s: string)
    ensures Strip(s) != [] ==> !IsSpace(Strip(s)[0]) && !IsSpace(Strip(s)[|Strip(s)| - 1])
  {
    var t := TrimStart(s);
    var r := TrimEnd(t);
    if r != [] {
      assert r[0] == t[0];
    }
  }

  lemma StripEmptyIffAllSpace(s: string, i: nat, j: nat)
    requires i <= j <= |s| && Strip(s) == s[i..j] && AllSpace(s[..i]) && AllSpace(s[j..])
    requires Strip(s) != [] ==> !IsSpace(Strip(s)[0])
    ensures Strip(s) == [] <==> AllSpace(s)
  {
    if Strip(s) == [] {
      assert s == s[..i] + s[j..];
      AllSpaceJoin(s[..i], s[j..]);
    } else {
      assert s[i] == Strip(s)[0];
    }
  }

  /** Where the stripped text sits in `s`. */
  lemma StripBounds(s: string) returns (i: nat, j: nat)
    ensures i <= j <= |s| && Strip(s) == s[i..j] && AllSpace(s[..i]) && AllSpace(s[j..])
  {
    var t := TrimStart(s);
    var r := TrimEnd(t);
    i := |s| - |t|;
    j := i + |r|;
    assert t == s[i..];
    assert r == s[i..j] by {
      assert r == t[..|r|];
    }
    assert AllSpace(s[j..]) by {
      assert s[j..] == t[|r|..];
    }
  }

  lemma AllSpaceJoin(a: string, b: string)
    requires AllSpace(a) && AllSpace(b)
    ensures AllSpace(a + b)
  {
  }

  /**
   * The `proxy` section for a stripped domain: route the domain with TLS
   * when there is one, otherwise the web host's wildcard-DNS name without.
   */
  function ProxyFor(domain: string, webIp: string): Proxy
  {
    Proxy(if domain != [] then domain else webIp + WildcardDnsSuffix, 80, false, domain != [], Healthcheck("/up", 3, 5))
  }

  /** The clear environment before custom variables are merged. */
  function DefaultClear(dbEnabled: bool, dbInternalIp: string, postgresDb: string): OMap<string>
  {
    [("BLOB_STORAGE_PATH", BlobStoragePath)]
      + (if dbEnabled then [("POSTGRES_HOST", dbInternalIp), ("POSTGRES_DB", postgresDb)] else [])
  }

  lemma DefaultClearKeys(dbEnabled: bool, dbInternalIp: string, postgresDb: string)
    ensures Keys(DefaultClear(dbEnabled, dbInternalIp, postgresDb)) ==
              ["BLOB_STORAGE_PATH"] + (if dbEnabled then ["POSTGRES_HOST", "POSTGRES_DB"] else [])
    ensures UniqueKeys(DefaultClear(dbEnabled, dbInternalIp, postgresDb))
    ensures "POSTGRES_HOST" !in Keys([("BLOB_STORAGE_PATH", BlobStoragePath)])
    ensures "POSTGRES_DB" !in Keys([("BLOB_STORAGE_PATH", BlobStoragePath), ("POSTGRES_HOST", dbInternalIp)])
  {
    assert "POSTGRES_HOST"[0] != "BLOB_STORAGE_PATH"[0];
    assert "POSTGRES_DB"[0] != "BLOB_STORAGE_PATH"[0];
    assert "POSTGRES_DB"[9] != "POSTGRES_HOST"[9];
  }

  /**
   * What the default clear env holds: the blob storage path always, the
   * database's internal address and name only when the database is
   * enabled, and nothing else.
   */
  lemma DefaultClearValues(dbEnabled: bool, dbInternalIp: string, postgresDb: string)
    ensures Get(DefaultClear(dbEnabled, dbInternalIp, postgresDb), "BLOB_STORAGE_PATH") == Some(BlobStoragePath)
    ensures Get(DefaultClear(dbEnabled, dbInternalIp, postgresDb), "POSTGRES_HOST") ==
              if dbEnabled then Some(dbInternalIp) else None
    ensures Get(DefaultClear(dbEnabled, dbInternalIp, postgresDb), "POSTGRES_DB") ==
              if dbEnabled then Some(postgresDb) else None
    ensures forall k :: k != "BLOB_STORAGE_PATH" && k != "POSTGRES_HOST" && k != "POSTGRES_DB" ==>
              Get(DefaultClear(dbEnabled, dbInternalIp, postgresDb), k) == None
  {
    var m := DefaultClear(dbEnabled, dbInternalIp, postgresDb);
    DefaultClearKeys(dbEnabled, dbInternalIp, postgresDb);
    GetUnique(m, "BLOB_STORAGE_PATH");
    GetUnique(m, "POSTGRES_HOST");
    GetUnique(m, "POSTGRES_DB");
    forall k | k != "BLOB_STORAGE_PATH" && k != "POSTGRES_HOST" && k != "POSTGRES_DB"
      ensures Get(m, k) == None
    {
      GetUnique(m, k);
    }
  }

  /** The database accessory, bound to the database host's external address. */
  function DbAccessoryFor(dbIp: string, postgresDb: string): DbAccessory
  {
    DbAccessory(
      "postgres:16",
      dbIp,
      "5432:5432",
      "--shared_buffers=256MB",
      AccessoryEnv(
        [("POSTGRES_DB", postgresDb), ("PGDATA", "/var/lib/postgresql/data/pgdata")],
        ["POSTGRES_USER", "POSTGRES_PASSWORD"]),
      ["/data/db:/var/lib/postgresql/data"])
  }

  /**
   * Assigning each custom variable into the clear env, in order:
   * every custom name ends with its custom value, every other name keeps
   * its value, existing names keep their positions and new names are
   * appended in the custom variables' order.
   */
  method MergeCustomVars(clear: OMap<string>, customVars: OMap<string>) returns (merged: OMap<string>)
    requires UniqueKeys(clear) && UniqueKeys(customVars)
    ensures merged == SetAll(clear, customVars)
    ensures UniqueKeys(merged)
    ensures Keys(merged) == Keys(clear) + NewKeys(Keys(customVars), Keys(clear))
    ensures forall k :: Get(merged, k) == if k in Keys(customVars) then Get(customVars, k) else Get(clear, k)
  {
    merged := clear;
    for i := 0 to |customVars|
      invariant merged == SetAll(clear, customVars[..i])
    {
      var (k, v) := customVars[i];
      assert customVars[..i + 1][..i] == customVars[..i];
      merged := Set(merged, k, v);
    }
    assert customVars[..|customVars|] == customVars;
    SetAllSpec(clear, customVars);
  }

  /**
   * Appending the custom secret names to the env's secret list:
   * the list is created only when there is a name to add, and the names go
   * after the ones already there, in order.
   */
  method AppendCustomSecrets(secret: Option<seq<string>>, names: seq<string>) returns (r: Option<seq<string>>)
    ensures r.Some? <==> secret.Some? || |names| > 0
    ensures r.Some? ==> r.value == (if secret.Some? then secret.value else []) + names
  {
    r := secret;
    if |names| > 0 {
      var existing := if secret.Some? then secret.value else [];
      r := Some(existing + names);
    }
  }

  /** The database's two clear env assignments turn the literal's `env.clear` into the enabled defaults. */
  lemma DbClearEntries(dbInternalIp: string, postgresDb: string)
    ensures Set(Set(DefaultClear(false, dbInternalIp, postgresDb), "POSTGRES_HOST", dbInternalIp), "POSTGRES_DB", postgresDb)
            == DefaultClear(true, dbInternalIp, postgresDb)
  {
    var blob := DefaultClear(false, dbInternalIp, postgresDb);
    DefaultClearKeys(true, dbInternalIp, postgresDb);
    assert blob == [("BLOB_STORAGE_PATH", BlobStoragePath)];
    SetNew(blob, "POSTGRES_HOST", dbInternalIp);
    SetNew(blob + [("POSTGRES_HOST", dbInternalIp)], "POSTGRES_DB", postgresDb);
    assert blob + [("POSTGRES_HOST", dbInternalIp)] + [("POSTGRES_DB", postgresDb)] == DefaultClear(true, dbInternalIp, postgresDb);
  }

  /**
   * The `config` literal and the two conditionals that extend it: the
   * workers server group, and the database's clear env entries, secret
   * names and accessory.
   */
  method BaseConfig(s: Settings, p: Provisioning) returns (config: Config)
    ensures config.service == s.repoName && config.image == s.repoFull
    ensures config.registry == Registry(RegistryServer, s.repoOwner, [RegistryPasswordName])
    ensures config.ssh == Ssh("root", [".kamal/ssh_key"])
    ensures config.servers.web == WebGroup([p.webIp])
    ensures config.servers.workers.Some? <==> s.workersEnabled && |p.workerIps| > 0
    ensures config.servers.workers.Some? ==> config.servers.workers.value == WorkerGroup(p.workerIps, s.workersCmd, false)
    ensures config.proxy == ProxyFor(Strip(s.domain), p.webIp)
    ensures config.env.clear == DefaultClear(s.dbEnabled, p.dbInternalIp, s.repoName)
    ensures config.env.secret == if s.dbEnabled then Some(DbSecretNames) else None
    ensures config.volumes == ["/data/blobs:/data/blobs"] && config.builder == Builder("amd64")
    ensures config.readinessDelay == 15 && config.deployTimeout == 180 && config.drainTimeout == 30
    ensures config.accessories == if s.dbEnabled then Some(Accessories(DbAccessoryFor(p.dbIp, s.repoName))) else None
  {
    var domain := Strip(s.domain);
    assert DefaultClear(false, p.dbInternalIp, s.repoName) == [("BLOB_STORAGE_PATH", BlobStoragePath)];
    config := Config(
      s.repoName,
      s.repoFull,
      Registry(RegistryServer, s.repoOwner, [RegistryPasswordName]),
      Ssh("root", [".kamal/ssh_key"]),
      Servers(WebGroup([p.webIp]), None),
      ProxyFor(domain, p.webIp),
      Env([("BLOB_STORAGE_PATH", BlobStoragePath)], None),
      ["/data/blobs:/data/blobs"],
      Builder("amd64"),
      15, 180, 30,
      None);

    if s.workersEnabled && |p.workerIps| > 0 {
      config := config.(servers := config.servers.(workers := Some(WorkerGroup(p.workerIps, s.workersCmd, false))));
    }

    if s.dbEnabled {
      var postgresDb := s.repoName;
      DbClearEntries(p.dbInternalIp, postgresDb);
      config := config.(env := config.env.(clear := Set(config.env.clear, "POSTGRES_HOST", p.dbInternalIp)));
      config := config.(env := config.env.(clear := Set(config.env.clear, "POSTGRES_DB", postgresDb)));
      config := config.(env := config.env.(secret := Some(DbSecretNames)));
      config := config.(accessories := Some(Accessories(DbAccessoryFor(p.dbIp, postgresDb))));
    }

  }

  /**
   * The script: the `config` literal, then the workers and database
   * conditionals, then the merge of custom variables into `env.clear`
   * and of custom secret names into `env.secret`.
   */
  method Generate(s: Settings, p: Provisioning, customVars: OMap<string>, customSecrets: seq<string>)
    returns (config: Config)
    requires UniqueKeys(customVars)
    // Values that do not depend on the inputs.
    ensures config.ssh == Ssh("root", [".kamal/ssh_key"])
    ensures config.proxy.appPort == 80 && !config.proxy.forwardHeaders
    ensures config.proxy.healthcheck == Healthcheck("/up", 3, 5)
    ensures config.volumes == ["/data/blobs:/data/blobs"] && config.builder == Builder("amd64")
    ensures config.readinessDelay == 15 && config.deployTimeout == 180 && config.drainTimeout == 30
    // Identity and registry: the password is a secret's name, never a value.
    ensures config.service == s.repoName && config.image == s.repoFull
    ensures config.registry == Registry(RegistryServer, s.repoOwner, [RegistryPasswordName])
    // Routing: the stripped domain when there is one, otherwise a wildcard-DNS name of the web host.
    ensures config.proxy.host == if Strip(s.domain) != [] then Strip(s.domain) else p.webIp + WildcardDnsSuffix
    ensures config.proxy.ssl <==> Strip(s.domain) != []
    // Server groups.
    ensures config.servers.web == WebGroup([p.webIp])
    ensures config.servers.workers.Some? <==> s.workersEnabled && |p.workerIps| > 0
    ensures config.servers.workers.Some? ==> config.servers.workers.value == WorkerGroup(p.workerIps, s.workersCmd, false)
    // The database accessory exists exactly when the database is enabled.
    ensures config.accessories.Some? <==> s.dbEnabled
    ensures s.dbEnabled ==> config.accessories.value.db == DbAccessoryFor(p.dbIp, s.repoName)
    // Clear env: the defaults, with custom variables overriding by name; defaults keep
    // their positions and new names are appended in the custom variables' order.
    ensures UniqueKeys(config.env.clear)
    ensures Keys(config.env.clear) ==
              Keys(DefaultClear(s.dbEnabled, p.dbInternalIp, s.repoName))
              + NewKeys(Keys(customVars), Keys(DefaultClear(s.dbEnabled, p.dbInternalIp, s.repoName)))
    ensures forall k :: Get(config.env.clear, k) ==
              if k in Keys(customVars) then Get(customVars, k)
              else Get(DefaultClear(s.dbEnabled, p.dbInternalIp, s.repoName), k)
    ensures "BLOB_STORAGE_PATH" !in Keys(customVars) ==>
              Get(config.env.clear, "BLOB_STORAGE_PATH") == Some(BlobStoragePath)
    ensures "POSTGRES_HOST" !in Keys(customVars) ==>
              Get(config.env.clear, "POSTGRES_HOST") == if s.dbEnabled then Some(p.dbInternalIp) else None
    ensures "POSTGRES_DB" !in Keys(customVars) ==>
              Get(config.env.clear, "POSTGRES_DB") == if s.dbEnabled then Some(s.repoName) else None
    // Secret env: present exactly when there is a name to list; database names first, then custom names.
    ensures config.env.secret.Some? <==> s.dbEnabled || |customSecrets| > 0
    ensures config.env.secret.Some? ==>
              config.env.secret.value == (if s.dbEnabled then DbSecretNames else []) + customSecrets
  {
    config := BaseConfig(s, p);
    DefaultClearKeys(s.dbEnabled, p.dbInternalIp, s.repoName);
    DefaultClearValues(s.dbEnabled, p.dbInternalIp, s.repoName);
    var clear := MergeCustomVars(config.env.clear, customVars);
    config := config.(env := config.env.(clear := clear));
    var secret := AppendCustomSecrets(config.env.secret, customSecrets);
    config := config.(env := config.env.(secret := secret));
  }
}
