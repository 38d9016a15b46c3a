/**
 * The two deploy stages run one after the other: the partitioner's custom
 * variables and custom secret names are the synthesizer's inputs
 * (create_kamal_secrets.py writes them, generate_kamal_config.py reads
 * them back unchanged). Both stages read the same database switch.
 */
module Pipeline {
  import opened Wrappers
  import opened OrderedMaps
  import Partitioner
  import Synthesizer

  /** The names `env.secret` lists; an absent key lists none. */
  function SecretNames(secret: Option<seq<string>>): seq<string>
  {
    match secret
    case None => []
    case Some(names) => names
  }

  /** The names the secrets file references are the registry password followed by `env.secret`. */
  lemma ReferencedAreConfigured(dbEnabled: bool, names: seq<string>, password: seq<string>, secret: Option<seq<string>>)
    requires password == [Partitioner.RegistryPasswordName]
    requires secret.Some? <==> dbEnabled || |names| > 0
    requires secret.Some? ==> secret.value == (if dbEnabled then Partitioner.DbSecretNames else []) + names
    ensures SecretNames(secret) == (if dbEnabled then Partitioner.DbSecretNames else []) + names
    ensures Partitioner.ReferencedNames(dbEnabled, names) == password + SecretNames(secret)
  {
  }

  /** A custom variable overrides a default exactly when its prefixed name was among the variables. */
  lemma ClearOverrides(variables: OMap<string>, custom: OMap<string>, defaults: OMap<string>, clear: OMap<string>)
    requires UniqueKeys(variables) && UniqueKeys(custom)
    requires forall n :: Get(custom, n) == Get(variables, Partitioner.Prefix + n)
    requires forall k :: Get(clear, k) == if k in Keys(custom) then Get(custom, k) else Get(defaults, k)
    ensures forall k :: Get(clear, k) ==
              if Partitioner.Prefix + k in Keys(variables) then Get(variables, Partitioner.Prefix + k)
              else Get(defaults, k)
  {
    forall k ensures k in Keys(custom) <==> Partitioner.Prefix + k in Keys(variables) {
      GetUnique(custom, k);
      GetUnique(variables, Partitioner.Prefix + k);
    }
  }

  /**
   * The secrets stage followed by the config stage. The secrets file
   * defines, line for line, exactly the names the deploy config asks
   * for: the registry password first, then `env.secret` in order, whose
   * tail is the custom secret names.
   */
  method Deploy(secrets: OMap<string>, variables: OMap<string>, s: Synthesizer.Settings, p: Synthesizer.Provisioning)
    returns (a: Partitioner.Artifacts, config: Synthesizer.Config)
    requires UniqueKeys(secrets) && UniqueKeys(variables)
    ensures SecretNames(config.env.secret) ==
              (if s.dbEnabled then Partitioner.DbSecretNames else []) + Keys(Partitioner.Selected(secrets))
    ensures forall n :: n in Keys(Partitioner.Selected(secrets)) <==> Partitioner.Prefix + n in Keys(secrets)
    ensures |a.secretLines| == |config.registry.password + SecretNames(config.env.secret)|
    ensures forall i :: 0 <= i < |a.secretLines| ==>
              a.secretLines[i] == Partitioner.RefLine((config.registry.password + SecretNames(config.env.secret))[i])
    ensures forall k :: Get(config.env.clear, k) ==
              if Partitioner.Prefix + k in Keys(variables) then Get(variables, Partitioner.Prefix + k)
              else Get(Synthesizer.DefaultClear(s.dbEnabled, p.dbInternalIp, s.repoName), k)
  {
    a := Partitioner.Partition(secrets, variables, s.dbEnabled);
    config := Synthesizer.Generate(s, p, a.customVars, a.customSecretNames);
    ReferencedAreConfigured(s.dbEnabled, a.customSecretNames, config.registry.password, config.env.secret);
    ClearOverrides(variables, a.customVars, Synthesizer.DefaultClear(s.dbEnabled, p.dbInternalIp, s.repoName), config.env.clear);
  }
}
