/** The environment of the sidecar container that injection adds, as Kubernetes passes it on. */
module InjectedEnv {
  import opened GoStrings
  import opened JsonPatch
  import opened Pods
  import opened Injector
  import opened InjectorProofs
  import SidecarConfig

  // ---- The environment of a container ----

  /** The value an entry gives: its own, or that of a field of the pod. */
  function ValueOf(entry: Json, fields: string -> string): string {
    var source := Field(entry, "valueFrom");
    if source.Null? then TextOf(Field(entry, "value"))
    else fields(TextOf(Field(Field(source, "fieldRef"), "fieldPath")))
  }

  function TextOf(j: Json): string {
    if j.Str? then j.s else ""
  }

  /** The last entry of a name counts, and a variable without one reads as empty. */
  function Getenv(entries: seq<Json>, fields: string -> string, name: string): string {
    if entries == [] then ""
    else
      var n := |entries| - 1;
      if Field(entries[n], "name") == Str(name) then ValueOf(entries[n], fields)
      else Getenv(entries[..n], fields, name)
  }

  lemma {:induction false} GetenvAt(entries: seq<Json>, fields: string -> string, name: string, i: nat)
    requires i < |entries| && Field(entries[i], "name") == Str(name)
    requires forall j :: i < j < |entries| ==> Field(entries[j], "name") != Str(name)
    ensures Getenv(entries, fields, name) == ValueOf(entries[i], fields)
  {
    if i < |entries| - 1 {
      GetenvAt(entries[..|entries| - 1], fields, name, i);
    }
  }

  lemma {:induction false} GetenvNone(entries: seq<Json>, fields: string -> string, name: string)
    requires forall j :: 0 <= j < |entries| ==> Field(entries[j], "name") != Str(name)
    ensures Getenv(entries, fields, name) == ""
  {
    if entries != [] {
      GetenvNone(entries[..|entries| - 1], fields, name);
    }
  }

  function Told(container: Json, fields: string -> string): SidecarConfig.Env {
    name => Getenv(Items(Field(container, "env")), fields, name)
  }

  // ---- The variables of the sidecar ----

  lemma EntryRead(name: string, value: string, path: string, fields: string -> string)
    ensures Field(EnvVar(name, value), "name") == Field(FieldEnvVar(name, path), "name") == Str(name)
    ensures ValueOf(EnvVar(name, value), fields) == value
    ensures ValueOf(FieldEnvVar(name, path), fields) == fields(path)
  {
    assert |"name"| == 4 && |"value"| == 5 && |"valueFrom"| == 9;
  }

  /** The entries have the given names and give the given values. */
  predicate Gives(entries: seq<Json>, fields: string -> string, names: seq<string>, values: seq<string>) {
    && |entries| == |names| == |values|
    && forall i :: 0 <= i < |entries| ==> Field(entries[i], "name") == Str(names[i])
                                          && ValueOf(entries[i], fields) == values[i]
  }

  lemma GivesConcat(xs: seq<Json>, ys: seq<Json>, fields: string -> string,
                    m: seq<string>, n: seq<string>, v: seq<string>, w: seq<string>)
    requires Gives(xs, fields, m, v) && Gives(ys, fields, n, w)
    ensures Gives(xs + ys, fields, m + n, v + w)
  {
    hide Field, ValueOf;
  }

  const IDENTITY := ["POD_NAME", "POD_NAMESPACE", "SERVICE_ACCOUNT", "APP_TARGET_ADDR"]
  const LISTENERS := ["INBOUND_PLAIN_PORT", "OUTBOUND_PORT", "INBOUND_MTLS_PORT", "MTLS_ENABLED", "METRICS_PORT"]
  const CERTIFICATES := ["BOOTSTRAP_CERTIFICATES", "CERT_FILE", "KEY_FILE", "CA_FILE"]
  const POLICIES := [
    "LOAD_BALANCER_ALGORITHM", "COPY_MODE", "RETRY_ATTEMPTS", "TIMEOUT", "CIRCUIT_BREAKER_FAILURE_THRESHOLD",
    "CIRCUIT_BREAKER_RECOVERY_TIME"]

  lemma IdentityGives(account: string, target: string, fields: string -> string)
    ensures Gives(IdentityEnv(account, target), fields, IDENTITY,
                  [fields("metadata.name"), fields("metadata.namespace"), account, target])
  {
    hide EnvVar, FieldEnvVar, ValueOf, Field;
    EntryRead(IDENTITY[0], "", "metadata.name", fields);
    EntryRead(IDENTITY[1], "", "metadata.namespace", fields);
    EntryRead(IDENTITY[2], account, "", fields);
    EntryRead(IDENTITY[3], target, "", fields);
  }

  lemma ListenersGive(cfg: Config, fields: string -> string)
    ensures Gives(ListenerEnv(cfg), fields, LISTENERS,
                  [Itoa(cfg.inboundPlainPort), Itoa(cfg.outboundPort), Itoa(cfg.inboundMTLSPort),
                   BoolText(cfg.mtlsEnabled), Itoa(cfg.metricsPort)])
  {
    hide EnvVar, ValueOf, Field, Itoa, BoolText;
    EntryRead(LISTENERS[0], Itoa(cfg.inboundPlainPort), "", fields);
    EntryRead(LISTENERS[1], Itoa(cfg.outboundPort), "", fields);
    EntryRead(LISTENERS[2], Itoa(cfg.inboundMTLSPort), "", fields);
    EntryRead(LISTENERS[3], BoolText(cfg.mtlsEnabled), "", fields);
    EntryRead(LISTENERS[4], Itoa(cfg.metricsPort), "", fields);
  }

  lemma CertificatesGive(cfg: Config, fields: string -> string)
    ensures Gives(CertificateEnv(cfg), fields, CERTIFICATES,
                  [BoolText(cfg.mtlsEnabled), "/etc/mesh/certs/tls.crt", "/etc/mesh/certs/tls.key",
                   "/etc/mesh/ca/ca.crt"])
  {
    hide EnvVar, ValueOf, Field, BoolText;
    EntryRead(CERTIFICATES[0], BoolText(cfg.mtlsEnabled), "", fields);
    EntryRead(CERTIFICATES[1], "/etc/mesh/certs/tls.crt", "", fields);
    EntryRead(CERTIFICATES[2], "/etc/mesh/certs/tls.key", "", fields);
    EntryRead(CERTIFICATES[3], "/etc/mesh/ca/ca.crt", "", fields);
  }

  lemma PoliciesGive(cfg: Config, fields: string -> string)
    ensures Gives(PolicyEnv(cfg), fields, POLICIES,
                  [cfg.loadBalancerAlgorithm, cfg.copyMode, Itoa(cfg.retryAttempts), cfg.connectTimeout,
                   Itoa(cfg.breakerThreshold), cfg.breakerRecovery])
  {
    hide EnvVar, ValueOf, Field, Itoa;
    EntryRead(POLICIES[0], cfg.loadBalancerAlgorithm, "", fields);
    EntryRead(POLICIES[1], cfg.copyMode, "", fields);
    EntryRead(POLICIES[2], Itoa(cfg.retryAttempts), "", fields);
    EntryRead(POLICIES[3], cfg.connectTimeout, "", fields);
    EntryRead(POLICIES[4], Itoa(cfg.breakerThreshold), "", fields);
    EntryRead(POLICIES[5], cfg.breakerRecovery, "", fields);
  }

  const NAMES := IDENTITY + LISTENERS + CERTIFICATES + POLICIES

  lemma NamesDiffer()
    ensures forall i, j :: 0 <= i < j < |NAMES| ==> NAMES[i] != NAMES[j]
  {
    assert NAMES[0][0] == 'P' && NAMES[11][0] == 'K';
    assert NAMES[1][0] == 'P' && NAMES[5][0] == 'O';
    assert NAMES[2][0] == 'S' && NAMES[3][0] == 'A';
    assert NAMES[7][1] == 'T' && NAMES[8][1] == 'E';
    assert NAMES[10][1] == 'E' && NAMES[14][1] == 'O';
    assert NAMES[12][0] == 'C' && NAMES[16][0] == 'T';
  }

  function Values(cfg: Config, account: string, target: string, fields: string -> string): seq<string> {
    [fields("metadata.name"), fields("metadata.namespace"), account, target]
    + [Itoa(cfg.inboundPlainPort), Itoa(cfg.outboundPort), Itoa(cfg.inboundMTLSPort), BoolText(cfg.mtlsEnabled),
       Itoa(cfg.metricsPort)]
    + [BoolText(cfg.mtlsEnabled), "/etc/mesh/certs/tls.crt", "/etc/mesh/certs/tls.key", "/etc/mesh/ca/ca.crt"]
    + [cfg.loadBalancerAlgorithm, cfg.copyMode, Itoa(cfg.retryAttempts), cfg.connectTimeout,
       Itoa(cfg.breakerThreshold), cfg.breakerRecovery]
  }

  lemma Places()
    ensures |NAMES| == 19
    ensures NAMES[0] == "POD_NAME" && NAMES[1] == "POD_NAMESPACE" && NAMES[2] == "SERVICE_ACCOUNT"
    ensures NAMES[3] == "APP_TARGET_ADDR" && NAMES[4] == "INBOUND_PLAIN_PORT" && NAMES[5] == "OUTBOUND_PORT"
    ensures NAMES[6] == "INBOUND_MTLS_PORT" && NAMES[7] == "MTLS_ENABLED" && NAMES[8] == "METRICS_PORT"
    ensures NAMES[9] == "BOOTSTRAP_CERTIFICATES" && NAMES[10] == "CERT_FILE" && NAMES[11] == "KEY_FILE"
    ensures NAMES[12] == "CA_FILE" && NAMES[13] == "LOAD_BALANCER_ALGORITHM" && NAMES[14] == "COPY_MODE"
    ensures NAMES[15] == "RETRY_ATTEMPTS" && NAMES[16] == "TIMEOUT"
    ensures NAMES[17] == "CIRCUIT_BREAKER_FAILURE_THRESHOLD" && NAMES[18] == "CIRCUIT_BREAKER_RECOVERY_TIME"
  {
  }

  lemma ValuesAt(cfg: Config, account: string, target: string, fields: string -> string)
    ensures var v := Values(cfg, account, target, fields);
            && |v| == 19 && v[0] == fields("metadata.name") && v[1] == fields("metadata.namespace")
            && v[2] == account && v[3] == target
            && v[4] == Itoa(cfg.inboundPlainPort) && v[5] == Itoa(cfg.outboundPort) && v[6] == Itoa(cfg.inboundMTLSPort)
            && v[7] == v[9] == BoolText(cfg.mtlsEnabled) && v[8] == Itoa(cfg.metricsPort)
            && v[10] == "/etc/mesh/certs/tls.crt" && v[11] == "/etc/mesh/certs/tls.key" && v[12] == "/etc/mesh/ca/ca.crt"
            && v[13] == cfg.loadBalancerAlgorithm && v[14] == cfg.copyMode && v[15] == Itoa(cfg.retryAttempts)
            && v[16] == cfg.connectTimeout && v[17] == Itoa(cfg.breakerThreshold) && v[18] == cfg.breakerRecovery
  {
    hide Itoa, BoolText;
  }

  lemma SidecarGives(cfg: Config, account: string, target: string, fields: string -> string)
    ensures Gives(Items(Field(SidecarJson(cfg, account, target), "env")), fields, NAMES,
                  Values(cfg, account, target, fields))
  {
    hide IdentityEnv, ListenerEnv, CertificateEnv, PolicyEnv, Gives, RunAs, SidecarResources, SidecarPorts, Itoa,
      BoolText;
    IdentityGives(account, target, fields);
    ListenersGive(cfg, fields);
    CertificatesGive(cfg, fields);
    PoliciesGive(cfg, fields);
    var (a, b, c, d) := (IdentityEnv(account, target), ListenerEnv(cfg), CertificateEnv(cfg), PolicyEnv(cfg));
    var v := [fields("metadata.name"), fields("metadata.namespace"), account, target];
    var w := [Itoa(cfg.inboundPlainPort), Itoa(cfg.outboundPort), Itoa(cfg.inboundMTLSPort),
              BoolText(cfg.mtlsEnabled), Itoa(cfg.metricsPort)];
    var x := [BoolText(cfg.mtlsEnabled), "/etc/mesh/certs/tls.crt", "/etc/mesh/certs/tls.key", "/etc/mesh/ca/ca.crt"];
    var y := [cfg.loadBalancerAlgorithm, cfg.copyMode, Itoa(cfg.retryAttempts), cfg.connectTimeout,
              Itoa(cfg.breakerThreshold), cfg.breakerRecovery];
    GivesConcat(a, b, fields, IDENTITY, LISTENERS, v, w);
    GivesConcat(a + b, c, fields, IDENTITY + LISTENERS, CERTIFICATES, v + w, x);
    GivesConcat(a + b + c, d, fields, IDENTITY + LISTENERS + CERTIFICATES, POLICIES, v + w + x, y);
    HasEnv(cfg, account, target);
  }

  lemma HasEnv(cfg: Config, account: string, target: string)
    ensures Items(Field(SidecarJson(cfg, account, target), "env"))
            == IdentityEnv(account, target) + ListenerEnv(cfg) + CertificateEnv(cfg) + PolicyEnv(cfg)
  {
    hide IdentityEnv, ListenerEnv, CertificateEnv, PolicyEnv, RunAs, SidecarResources, SidecarPorts;
    assert "env"[0] == 'e';
  }

  lemma Listed(i: nat)
    requires i < |NAMES|
    ensures forall j :: i < j < |NAMES| ==> NAMES[j] != NAMES[i]
  {
    NamesDiffer();
  }

  /** What the sidecar finds in the variable of a given place in the list. */
  lemma SidecarTold(cfg: Config, account: string, target: string, fields: string -> string, i: nat)
    requires i < |NAMES|
    ensures i < |Values(cfg, account, target, fields)|
    ensures Told(SidecarJson(cfg, account, target), fields)(NAMES[i]) == Values(cfg, account, target, fields)[i]
  {
    hide SidecarJson, Itoa, BoolText, Values, Field, ValueOf;
    SidecarGives(cfg, account, target, fields);
    Listed(i);
    hide NAMES;
    GetenvAt(Items(Field(SidecarJson(cfg, account, target), "env")), fields, NAMES[i], i);
  }

  lemma SidecarNotTold(cfg: Config, account: string, target: string, fields: string -> string, name: string)
    requires name !in NAMES
    ensures Told(SidecarJson(cfg, account, target), fields)(name) == ""
  {
    hide SidecarJson, Itoa, BoolText, Values, Field, ValueOf;
    SidecarGives(cfg, account, target, fields);
    hide NAMES;
    GetenvNone(Items(Field(SidecarJson(cfg, account, target), "env")), fields, name);
  }

  lemma OtherNames()
    ensures "DIAL_TIMEOUT" !in NAMES && "SHUTDOWN_TIMEOUT" !in NAMES && "RETRY_BACKOFF_TYPE" !in NAMES
    ensures "RETRY_BASE_INTERVAL" !in NAMES
  {
    assert NAMES[7][0] == 'M' && NAMES[8][0] == 'M' && "DIAL_TIMEOUT"[0] == 'D';
    assert NAMES[4][0] == 'I' && "RETRY_BACKOFF_TYPE"[0] == 'R';
  }

  lemma MoreOtherNames()
    ensures "CERT_MANAGER_SIGN_URL" !in NAMES && "SERVICE_ACCOUNT_TOKEN_PATH" !in NAMES
    ensures "EXCLUDE_INBOUND_PORTS" !in NAMES
  {
  }

  lemma NoPrefix(key: string)
    ensures "SIDECAR_" + key !in NAMES
  {
    assert ("SIDECAR_" + key)[0] == 'S' && ("SIDECAR_" + key)[1] == 'I';
    assert NAMES[0][0] == 'P' && NAMES[1][0] == 'P' && NAMES[2][1] == 'E' && NAMES[3][0] == 'A' && NAMES[4][0] == 'I';
    assert NAMES[5][0] == 'O' && NAMES[6][0] == 'I' && NAMES[7][0] == 'M' && NAMES[8][0] == 'M' && NAMES[9][0] == 'B';
    assert NAMES[10][0] == 'C' && NAMES[11][0] == 'K' && NAMES[12][0] == 'C' && NAMES[13][0] == 'L';
    assert NAMES[14][0] == 'C' && NAMES[15][0] == 'R' && NAMES[16][0] == 'T' && NAMES[17][0] == 'C';
    assert NAMES[18][0] == 'C';
  }

  // ---- The variables of the init container ----

  const REDIRECTION := [
    "INBOUND_PORTS", "INBOUND_PLAIN_PORT", "OUTBOUND_PORT", "EXCLUDE_INBOUND_PORTS", "EXCLUDE_OUTBOUND_IPS", "UID"]

  lemma RedirectionGives(cfg: Config, ports: string, fields: string -> string)
    ensures Gives(IptablesEnv(cfg, ports), fields, REDIRECTION,
                  [ports, Itoa(cfg.inboundPlainPort), Itoa(cfg.outboundPort), cfg.excludeInbound, cfg.excludeOutbound,
                   Itoa(cfg.sidecarUID)])
  {
    hide EnvVar, ValueOf, Field, Itoa;
    EntryRead(REDIRECTION[0], ports, "", fields);
    EntryRead(REDIRECTION[1], Itoa(cfg.inboundPlainPort), "", fields);
    EntryRead(REDIRECTION[2], Itoa(cfg.outboundPort), "", fields);
    EntryRead(REDIRECTION[3], cfg.excludeInbound, "", fields);
    EntryRead(REDIRECTION[4], cfg.excludeOutbound, "", fields);
    EntryRead(REDIRECTION[5], Itoa(cfg.sidecarUID), "", fields);
  }

  lemma RedirectionDiffers()
    ensures forall i, j :: 0 <= i < j < |REDIRECTION| ==> REDIRECTION[i] != REDIRECTION[j]
  {
    assert REDIRECTION[0][0] == 'I' && REDIRECTION[2][0] == 'O';
  }

  lemma InitHasEnv(cfg: Config, ports: string)
    ensures Items(Field(IptablesJson(cfg, ports), "env")) == IptablesEnv(cfg, ports)
  {
    hide IptablesEnv, NetAdmin;
    assert "env"[0] == 'e';
  }

  /** What the init container finds in its variables. */
  lemma InitTold(cfg: Config, ports: string, fields: string -> string)
    ensures var env := Told(IptablesJson(cfg, ports), fields);
            && env("INBOUND_PORTS") == ports && env("INBOUND_PLAIN_PORT") == Itoa(cfg.inboundPlainPort)
            && env("OUTBOUND_PORT") == Itoa(cfg.outboundPort) && env("EXCLUDE_INBOUND_PORTS") == cfg.excludeInbound
            && env("EXCLUDE_OUTBOUND_IPS") == cfg.excludeOutbound && env("UID") == Itoa(cfg.sidecarUID)
  {
    hide IptablesJson, IptablesEnv, Itoa, Field, ValueOf;
    InitHasEnv(cfg, ports);
    RedirectionGives(cfg, ports, fields);
    RedirectionDiffers();
    var entries := IptablesEnv(cfg, ports);
    GetenvAt(entries, fields, REDIRECTION[0], 0);
    GetenvAt(entries, fields, REDIRECTION[1], 1);
    GetenvAt(entries, fields, REDIRECTION[2], 2);
    GetenvAt(entries, fields, REDIRECTION[3], 3);
    GetenvAt(entries, fields, REDIRECTION[4], 4);
    GetenvAt(entries, fields, REDIRECTION[5], 5);
  }
}
