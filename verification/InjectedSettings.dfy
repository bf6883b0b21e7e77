/** The settings the injected sidecar reads from its environment, against the configuration of the webhook. */
module InjectedSettings {
  import opened Options
  import opened GoStrings
  import opened Injector
  import opened InjectedEnv
  import opened SidecarConfig
  import Retry

  // ---- The settings the sidecar reads ----

  /** What the webhook's own Validate asks of its configuration, of which the numbers are Go ints. */
  ghost predicate HookAccepts(cfg: Injector.Config, duration: string -> Option<int>) {
    && Numbers(cfg) && cfg.metricsPort > 0 && cfg.inboundPlainPort > 0 && cfg.outboundPort > 0
    && cfg.inboundMTLSPort >= 0 && (cfg.mtlsEnabled ==> cfg.inboundMTLSPort > 0)
    && cfg.sidecarUID > 0 && cfg.retryAttempts >= 0 && cfg.breakerThreshold >= 0
    && cfg.copyMode in {"buffered", "zero-copy"}
    && Trimmed(cfg.loadBalancerAlgorithm) && Trimmed(cfg.connectTimeout) && Trimmed(cfg.breakerRecovery)
    && duration(cfg.connectTimeout).Some? && duration(cfg.connectTimeout).value >= 0
    && duration(cfg.breakerRecovery).Some? && duration(cfg.breakerRecovery).value > 0
  }

  predicate Numbers(cfg: Injector.Config) {
    && Retry.FitsInt64(cfg.metricsPort) && Retry.FitsInt64(cfg.inboundPlainPort) && Retry.FitsInt64(cfg.outboundPort)
    && Retry.FitsInt64(cfg.inboundMTLSPort) && Retry.FitsInt64(cfg.sidecarUID)
    && Retry.FitsInt64(cfg.retryAttempts) && Retry.FitsInt64(cfg.breakerThreshold)
  }

  /** The settings in which the webhook has its say are the webhook's; the threshold only if it has 32 bits. */
  predicate SameSettings(cfg: Injector.Config, account: string, target: string, duration: string -> Option<int>,
                         fields: string -> string, s: Settings)
  {
    && s.podName == fields("metadata.name") && s.namespace == fields("metadata.namespace")
    && s.serviceAccount == account && s.appTargetAddr == target
    && s.inboundPlainPort == cfg.inboundPlainPort && s.outboundPort == cfg.outboundPort
    && s.inboundMTLSPort == (if cfg.mtlsEnabled then cfg.inboundMTLSPort else 0)
    && s.mtlsEnabled == cfg.mtlsEnabled && s.metricsPort == cfg.metricsPort && s.bootstrap == cfg.mtlsEnabled
    && s.certFile == "/etc/mesh/certs/tls.crt" && s.keyFile == "/etc/mesh/certs/tls.key"
    && s.caFile == "/etc/mesh/ca/ca.crt"
    && s.algorithm == cfg.loadBalancerAlgorithm && s.copyMode == cfg.copyMode && s.attempts == cfg.retryAttempts
    && Some(s.timeout) == duration(cfg.connectTimeout) && Some(s.recoveryTime) == duration(cfg.breakerRecovery)
    && s.failureThreshold == if cfg.breakerThreshold < 0x1_0000_0000 then cfg.breakerThreshold else 5
  }

  /** In the others the sidecar's defaults stand. */
  predicate DefaultSettings(s: Settings) {
    && s.excludeInboundPorts == "9090" && s.backoffType == "exponential" && s.baseInterval == 100000000
    && s.shutdownTimeout == 30000000000 && s.dialTimeout == (if s.timeout <= 0 then 5000000000 else s.timeout)
    && s.signURL != "" && s.tokenPath != ""
  }

  function SidecarsEnv(cfg: Injector.Config, account: string, target: string, fields: string -> string): Env {
    Told(SidecarJson(cfg, account, target), fields)
  }

  lemma TextRead(cfg: Injector.Config, account: string, target: string, fields: string -> string, i: nat,
                 more: seq<string>, fallback: string)
    requires i < |NAMES| == |Values(cfg, account, target, fields)|
    requires Trimmed(Values(cfg, account, target, fields)[i])
    ensures FirstOf(SidecarsEnv(cfg, account, target, fields), [NAMES[i]] + more, Text, fallback)
            == Values(cfg, account, target, fields)[i]
  {
    hide Values, Told, SidecarJson, FirstOf, NAMES;
    SidecarTold(cfg, account, target, fields, i);
    FirstGiven(SidecarsEnv(cfg, account, target, fields), NAMES[i], more, Text, fallback);
  }

  lemma TextSetting(cfg: Injector.Config, account: string, target: string, fields: string -> string, i: nat,
                    fallback: string)
    requires i < |NAMES| == |Values(cfg, account, target, fields)|
    requires Trimmed(Values(cfg, account, target, fields)[i])
    ensures ReadText(SidecarsEnv(cfg, account, target, fields), NAMES[i], fallback)
            == Values(cfg, account, target, fields)[i]
  {
    hide Values, SidecarsEnv, FirstOf, NAMES, Trimmed;
    TextRead(cfg, account, target, fields, i, ["SIDECAR_" + NAMES[i]], fallback);
  }

  lemma NumberRead(cfg: Injector.Config, account: string, target: string, fields: string -> string, i: nat,
                   n: int, fallback: int)
    requires i < |NAMES| == |Values(cfg, account, target, fields)|
    requires Values(cfg, account, target, fields)[i] == Itoa(n) && Retry.FitsInt64(n)
    ensures ReadInt(SidecarsEnv(cfg, account, target, fields), NAMES[i], fallback) == n
  {
    hide Values, Told, SidecarJson, FirstOf, NAMES, ParseInt;
    SidecarTold(cfg, account, target, fields, i);
    ItoaParses(n);
    FirstGiven(SidecarsEnv(cfg, account, target, fields), NAMES[i], ["SIDECAR_" + NAMES[i]], ParseInt, fallback);
  }

  lemma BoolRead(cfg: Injector.Config, account: string, target: string, fields: string -> string, i: nat,
                 b: bool, fallback: bool)
    requires i < |NAMES| == |Values(cfg, account, target, fields)|
    requires Values(cfg, account, target, fields)[i] == BoolText(b)
    ensures ReadBool(SidecarsEnv(cfg, account, target, fields), NAMES[i], fallback) == b
  {
    hide Values, Told, SidecarJson, FirstOf, NAMES;
    SidecarTold(cfg, account, target, fields, i);
    BoolTextParses(b);
    hide BoolText, ParseBool;
    FirstGiven(SidecarsEnv(cfg, account, target, fields), NAMES[i], ["SIDECAR_" + NAMES[i]], ParseBool, fallback);
  }

  lemma BoolTextParses(b: bool)
    ensures Trimmed(BoolText(b)) && ParseBool(BoolText(b)) == Some(b)
  {
    var s := BoolText(b);
    assert s[0] in {'t', 'f'} && s[|s| - 1] == 'e';
    assert "true"[0] == 't' && "false"[0] == 'f' && |"true"| == 4 && |"false"| == 5;
  }

  lemma DurationRead(cfg: Injector.Config, account: string, target: string, fields: string -> string, i: nat,
                     duration: string -> Option<int>, fallback: int)
    requires i < |NAMES| == |Values(cfg, account, target, fields)|
    requires var v := Values(cfg, account, target, fields)[i]; Trimmed(v) && duration(v).Some?
    ensures Some(FirstOf(SidecarsEnv(cfg, account, target, fields), Aliases(NAMES[i]), duration, fallback))
            == duration(Values(cfg, account, target, fields)[i])
  {
    hide Values, Told, SidecarJson, FirstOf, NAMES;
    SidecarTold(cfg, account, target, fields, i);
    FirstGiven(SidecarsEnv(cfg, account, target, fields), NAMES[i], ["SIDECAR_" + NAMES[i]], duration, fallback);
  }

  lemma NotRead<T>(cfg: Injector.Config, account: string, target: string, fields: string -> string, name: string,
                   read: string -> Option<T>, fallback: T)
    requires name !in NAMES
    ensures FirstOf(SidecarsEnv(cfg, account, target, fields), Aliases(name), read, fallback) == fallback
    ensures FirstOf(SidecarsEnv(cfg, account, target, fields), ["SIDECAR_" + name], read, fallback) == fallback
  {
    hide Told, SidecarJson, FirstOf, NAMES;
    NoPrefix(name);
    SidecarNotTold(cfg, account, target, fields, name);
    SidecarNotTold(cfg, account, target, fields, "SIDECAR_" + name);
    NoneGiven(SidecarsEnv(cfg, account, target, fields), Aliases(name), read, fallback);
    NoneGiven(SidecarsEnv(cfg, account, target, fields), ["SIDECAR_" + name], read, fallback);
  }

  lemma TextNotRead(cfg: Injector.Config, account: string, target: string, fields: string -> string, name: string,
                    fallback: string)
    requires name !in NAMES
    ensures ReadText(SidecarsEnv(cfg, account, target, fields), name, fallback) == fallback
  {
    hide SidecarsEnv, FirstOf, NAMES, Aliases;
    NotRead(cfg, account, target, fields, name, Text, fallback);
  }

  /** A threshold that 32 bits do not hold cannot be read, and the default takes its place. */
  lemma ThresholdRead(cfg: Injector.Config, account: string, target: string, fields: string -> string, i: nat)
    requires i < |NAMES| == |Values(cfg, account, target, fields)|
    requires Values(cfg, account, target, fields)[i] == Itoa(cfg.breakerThreshold) && cfg.breakerThreshold >= 0
    ensures FirstOf(SidecarsEnv(cfg, account, target, fields), Aliases(NAMES[i]), ParseUint32, 5)
            == if cfg.breakerThreshold < 0x1_0000_0000 then cfg.breakerThreshold else 5
  {
    hide Values, Told, SidecarJson, FirstOf, NAMES, ParseUint32;
    var (env, alias) := (SidecarsEnv(cfg, account, target, fields), "SIDECAR_" + NAMES[i]);
    SidecarTold(cfg, account, target, fields, i);
    ItoaParses(cfg.breakerThreshold);
    if cfg.breakerThreshold < 0x1_0000_0000 {
      FirstGiven(env, NAMES[i], [alias], ParseUint32, 5);
    } else {
      SecondGiven(env, NAMES[i], [alias], ParseUint32, 5);
      NoPrefix(NAMES[i]);
      SidecarNotTold(cfg, account, target, fields, alias);
      NoneGiven(env, [alias], ParseUint32, 5);
    }
  }

  /** Names fit to read: those of the pod and its namespace. */
  predicate ReadableFields(fields: string -> string) {
    Trimmed(fields("metadata.name")) && Trimmed(fields("metadata.namespace"))
  }

  lemma IdentityRead(cfg: Injector.Config, account: string, target: string, duration: string -> Option<int>,
                     fields: string -> string)
    requires Trimmed(account) && Trimmed(target) && ReadableFields(fields)
    ensures var s := Read(SidecarsEnv(cfg, account, target, fields), duration);
            && s.podName == fields("metadata.name") && s.namespace == fields("metadata.namespace")
            && s.serviceAccount == account && s.appTargetAddr == target
  {
    hide FirstOf, Trimmed, BoolText, Itoa, SidecarsEnv, ReadInt, ReadBool, ReadText, TrimSpace, Values,
      NAMES, Aliases, Read;
    Places();
    ValuesAt(cfg, account, target, fields);
    IdentityReads(SidecarsEnv(cfg, account, target, fields), duration);
    TextRead(cfg, account, target, fields, 0, [], "unknown-pod");
    TextRead(cfg, account, target, fields, 1, [], "default");
    TextRead(cfg, account, target, fields, 2, [], "default");
    TextSetting(cfg, account, target, fields, 3, "127.0.0.1:8080");
  }

  lemma ListenersRead(cfg: Injector.Config, account: string, target: string, duration: string -> Option<int>,
                      fields: string -> string)
    requires HookAccepts(cfg, duration)
    ensures var s := Read(SidecarsEnv(cfg, account, target, fields), duration);
            && s.inboundPlainPort == cfg.inboundPlainPort && s.outboundPort == cfg.outboundPort
            && s.inboundMTLSPort == cfg.inboundMTLSPort && s.mtlsEnabled == cfg.mtlsEnabled
            && s.metricsPort == cfg.metricsPort && s.bootstrap == cfg.mtlsEnabled
  {
    hide FirstOf, Trimmed, BoolText, Itoa, SidecarsEnv, ReadInt, ReadBool, ReadText, TrimSpace, Values,
      NAMES, Aliases, Read;
    Places();
    ValuesAt(cfg, account, target, fields);
    ListenerReads(SidecarsEnv(cfg, account, target, fields), duration);
    NumberRead(cfg, account, target, fields, 4, cfg.inboundPlainPort, 15006);
    NumberRead(cfg, account, target, fields, 5, cfg.outboundPort, 15002);
    NumberRead(cfg, account, target, fields, 6, cfg.inboundMTLSPort, 15001);
    BoolRead(cfg, account, target, fields, 7, cfg.mtlsEnabled, true);
    NumberRead(cfg, account, target, fields, 8, cfg.metricsPort, 9090);
    BoolRead(cfg, account, target, fields, 9, cfg.mtlsEnabled, true);
  }

  lemma FilesAreTrimmed()
    ensures Trimmed("/etc/mesh/certs/tls.crt") && Trimmed("/etc/mesh/certs/tls.key") && Trimmed("/etc/mesh/ca/ca.crt")
  {
    EndsAreTrimmed("/etc/mesh/certs/tls.crt");
    EndsAreTrimmed("/etc/mesh/certs/tls.key");
    EndsAreTrimmed("/etc/mesh/ca/ca.crt");
  }

  lemma EndsAreTrimmed(s: string)
    requires s != "" && !IsSpace(s[0]) && !IsSpace(s[|s| - 1])
    ensures Trimmed(s)
  {
  }

  lemma FilesRead(cfg: Injector.Config, account: string, target: string, duration: string -> Option<int>,
                  fields: string -> string)
    ensures var s := Read(SidecarsEnv(cfg, account, target, fields), duration);
            && s.certFile == "/etc/mesh/certs/tls.crt" && s.keyFile == "/etc/mesh/certs/tls.key"
            && s.caFile == "/etc/mesh/ca/ca.crt"
  {
    hide FirstOf, Trimmed, BoolText, Itoa, SidecarsEnv, ReadInt, ReadBool, ReadText, TrimSpace, Values,
      NAMES, Aliases, Read;
    Places();
    ValuesAt(cfg, account, target, fields);
    FileReads(SidecarsEnv(cfg, account, target, fields), duration);
    FilesAreTrimmed();
    TextSetting(cfg, account, target, fields, 10, "");
    TextSetting(cfg, account, target, fields, 11, "");
    TextSetting(cfg, account, target, fields, 12, "");
  }

  lemma PoliciesRead(cfg: Injector.Config, account: string, target: string, duration: string -> Option<int>,
                     fields: string -> string)
    requires HookAccepts(cfg, duration)
    ensures var s := Read(SidecarsEnv(cfg, account, target, fields), duration);
            && s.algorithm == cfg.loadBalancerAlgorithm && s.copyMode == cfg.copyMode && s.attempts == cfg.retryAttempts
            && Some(s.timeout) == duration(cfg.connectTimeout) && Some(s.recoveryTime) == duration(cfg.breakerRecovery)
            && s.failureThreshold == if cfg.breakerThreshold < 0x1_0000_0000 then cfg.breakerThreshold else 5
  {
    hide FirstOf, Trimmed, BoolText, Itoa, SidecarsEnv, ReadInt, ReadBool, ReadText, TrimSpace, Values,
      NAMES, Aliases, Read;
    Places();
    ValuesAt(cfg, account, target, fields);
    PolicyReads(SidecarsEnv(cfg, account, target, fields), duration);
    CopyModesAreTrimmed();
    TextSetting(cfg, account, target, fields, 13, "roundRobin");
    TextSetting(cfg, account, target, fields, 14, "buffered");
    NumberRead(cfg, account, target, fields, 15, cfg.retryAttempts, 3);
    DurationRead(cfg, account, target, fields, 16, duration, 5 * SECOND);
    ThresholdRead(cfg, account, target, fields, 17);
    DurationRead(cfg, account, target, fields, 18, duration, 30 * SECOND);
  }

  lemma CopyModesAreTrimmed()
    ensures Trimmed("buffered") && Trimmed("zero-copy")
  {
    EndsAreTrimmed("buffered");
    EndsAreTrimmed("zero-copy");
  }

  lemma DefaultsRead(cfg: Injector.Config, account: string, target: string, duration: string -> Option<int>,
                     fields: string -> string)
    ensures DefaultSettings(Read(SidecarsEnv(cfg, account, target, fields), duration))
  {
    hide FirstOf, Trimmed, BoolText, Itoa, SidecarsEnv, ReadInt, ReadBool, ReadText, TrimSpace, Values,
      NAMES, Aliases, Read;
    DefaultReads(SidecarsEnv(cfg, account, target, fields), duration);
    OtherNames();
    MoreOtherNames();
    var timeout := Read(SidecarsEnv(cfg, account, target, fields), duration).timeout;
    TextNotRead(cfg, account, target, fields, "EXCLUDE_INBOUND_PORTS", "9090");
    TextNotRead(cfg, account, target, fields, "RETRY_BACKOFF_TYPE", "exponential");
    NotRead(cfg, account, target, fields, "RETRY_BASE_INTERVAL", duration, SECOND / 10);
    NotRead(cfg, account, target, fields, "SHUTDOWN_TIMEOUT", duration, 30 * SECOND);
    NotRead(cfg, account, target, fields, "DIAL_TIMEOUT", duration, if timeout <= 0 then 5 * SECOND else timeout);
    TextNotRead(cfg, account, target, fields, "CERT_MANAGER_SIGN_URL",
                "http://mesh-cert-manager.mesh-system.svc.cluster.local:8080/sign");
    TextNotRead(cfg, account, target, fields, "SERVICE_ACCOUNT_TOKEN_PATH",
                "/var/run/secrets/kubernetes.io/serviceaccount/token");
  }

  lemma OnlyDefaultPort(port: int)
    ensures ContainsPort("9090", port) <==> port == 9090
  {
    var s := "9090";
    SplitWhole(s, ',');
    EndsAreTrimmed(s);
    assert s[..3] == "909" && s[..3][..2] == "90" && s[..2][..1] == "9" && s[..1][..0] == "";
    assert DigitsValue("9") == 9 && DigitsValue("90") == 90 && DigitsValue("909") == 909 && DigitsValue(s) == 9090;
    assert ParseInt(s) == Some(9090);
    assert Split(s, ',')[0] == s;
  }

  /** The ports the sidecar is to listen on. */
  function Listening(cfg: Injector.Config): set<int> {
    {cfg.inboundPlainPort, cfg.outboundPort, cfg.metricsPort}
    + if cfg.inboundMTLSPort > 0 then {cfg.inboundMTLSPort} else {}
  }

  /** Settings are loaded under these conditions only, and are then those of the webhook and, beside them, defaults. */
  predicate LoadedAsTold(cfg: Injector.Config, account: string, target: string, duration: string -> Option<int>,
                         fields: string -> string, loaded: Option<Settings>)
  {
    && (loaded.Some? <==> cfg.metricsPort == 9090 && |Listening(cfg)| >= 3
                          && cfg.loadBalancerAlgorithm in {"none", "roundRobin", "random"})
    && (loaded.Some? ==> SameSettings(cfg, account, target, duration, fields, loaded.value)
                         && DefaultSettings(loaded.value))
  }

  /**
   The injected sidecar reads the webhook's settings, but the webhook does not tell it everything the sidecar checks. It
   starts exactly when the metrics port is the one its default exclusion names, the algorithm is one it knows, and at
   least three of its ports are different; the webhook accepts configurations in which that is not so.
   */
  lemma SidecarStartsIff(cfg: Injector.Config, account: string, target: string, duration: string -> Option<int>,
                         fields: string -> string)
    requires HookAccepts(cfg, duration) && ReadableFields(fields)
    requires Trimmed(account) && Trimmed(target) && SplitsHostPort(target)
    ensures LoadedAsTold(cfg, account, target, duration, fields,
                         Load(SidecarsEnv(cfg, account, target, fields), duration))
  {
    hide Read, SidecarsEnv, ContainsPort, SplitsHostPort, Trimmed, BoolText, Itoa;
    IdentityRead(cfg, account, target, duration, fields);
    ListenersRead(cfg, account, target, duration, fields);
    FilesRead(cfg, account, target, duration, fields);
    PoliciesRead(cfg, account, target, duration, fields);
    DefaultsRead(cfg, account, target, duration, fields);
    OnlyDefaultPort(cfg.metricsPort);
    PortNumbers(cfg.inboundPlainPort, cfg.outboundPort, cfg.metricsPort, cfg.inboundMTLSPort);
  }

  const MESH := Injector.Config(
    {}, "v0.1.0", true, 9091, 15006, 15002, 15001, true, "9091", "169.254.169.254/32", 1337, "mesh/iptables-init:latest",
    "mesh/sidecar:latest", "roundRobin", "buffered", 3, "5s", 5, "30s")

  /** time.ParseDuration, as far as it is needed here. */
  function Seconds(text: string): Option<int> {
    if text == "5s" then Some(5 * SECOND) else if text == "30s" then Some(30 * SECOND) else None
  }

  lemma MeshIsAccepted()
    ensures HookAccepts(MESH, Seconds)
  {
    EndsAreTrimmed("roundRobin");
    EndsAreTrimmed("5s");
    EndsAreTrimmed("30s");
    hide Trimmed;
    assert |"5s"| == 2 && |"30s"| == 3;
  }

  /** The default configuration but for the metrics port, which is excluded from redirection as it should be. */
  lemma OtherMetricsPortExample(account: string, target: string, fields: string -> string)
    requires Trimmed(account) && Trimmed(target) && SplitsHostPort(target) && ReadableFields(fields)
    ensures HookAccepts(MESH, Seconds) && MESH.metricsPort == 9091 && MESH.excludeInbound == "9091"
    ensures Load(SidecarsEnv(MESH, account, target, fields), Seconds).None?
  {
    hide Load, SidecarsEnv, HookAccepts, SplitsHostPort, Trimmed, ReadableFields, SameSettings, DefaultSettings;
    MeshIsAccepted();
    SidecarStartsIff(MESH, account, target, Seconds, fields);
  }
}
