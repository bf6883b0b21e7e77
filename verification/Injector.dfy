/** The pod-mutation webhook: the decision for one pod and the JSON Patch it answers with. */
module Injector {
  import opened Options
  import opened GoStrings
  import opened JsonPatch
  import opened Pods
  import opened Sorting

  const ANNOTATION_INJECT := "sidecar.mesh.io/inject"
  const ANNOTATION_INJECTED := "sidecar.mesh.io/injected"
  const ANNOTATION_VERSION := "sidecar.mesh.io/version"
  const PROMETHEUS_SCRAPE := "prometheus.io/scrape"
  const PROMETHEUS_PORT := "prometheus.io/port"
  const PROMETHEUS_PATH := "prometheus.io/path"
  const IPTABLES := "iptables-init"
  const SIDECAR := "sidecar"
  const MESH_CA := "mesh-ca"
  const DEFAULT_TARGET := "127.0.0.1:8080"

  datatype Config = Config(
    ignoreNamespaces: set<string>, meshVersion: string, monitoringEnabled: bool, metricsPort: int,
    inboundPlainPort: int, outboundPort: int, inboundMTLSPort: int, mtlsEnabled: bool,
    excludeInbound: string, excludeOutbound: string, sidecarUID: int, iptablesImage: string, sidecarImage: string,
    loadBalancerAlgorithm: string, copyMode: string, retryAttempts: int, connectTimeout: string,
    breakerThreshold: int, breakerRecovery: string)

  datatype Decision = Skip(reason: string) | Mutate(patch: seq<Operation>)

  datatype Answer = Rejected(message: string) | Decided(decision: Decision)

  /** strings.EqualFold(s, "false"): besides the ASCII letters, U+017F folds to 's'. */
  predicate FoldsToFalse(s: string) {
    && |s| == 5
    && s[0] in {'f', 'F'} && s[1] in {'a', 'A'} && s[2] in {'l', 'L'}
    && s[3] in {'s', 'S', '\U{17F}'} && s[4] in {'e', 'E'}
  }

  predicate OptedOut(pod: Pod) {
    && pod.annotations.Some? && ANNOTATION_INJECT in pod.annotations.value
    && FoldsToFalse(TrimSpace(pod.annotations.value[ANNOTATION_INJECT]))
  }

  function Label(pod: Pod, key: string): string {
    if pod.labels.Some? && key in pod.labels.value then TrimSpace(pod.labels.value[key]) else ""
  }

  /** The first controlling owner with a name that is not blank. */
  function OwnerName(owners: seq<Owner>): string {
    if owners == [] then "default"
    else if owners[0].controller && TrimSpace(owners[0].name) != "" then TrimSpace(owners[0].name)
    else OwnerName(owners[1..])
  }

  /** deriveServiceAccountName. */
  function DeriveServiceAccountName(pod: Pod): string {
    if Label(pod, "app") != "" then Label(pod, "app")
    else if Label(pod, "app.kubernetes.io/name") != "" then Label(pod, "app.kubernetes.io/name")
    else OwnerName(pod.owners)
  }

  function ServiceAccountName(pod: Pod): string {
    var explicit := TrimSpace(pod.serviceAccountName);
    if explicit == "" then DeriveServiceAccountName(pod) else explicit
  }

  function DesiredAnnotations(cfg: Config): map<string, string> {
    map[ANNOTATION_INJECTED := "true", ANNOTATION_VERSION := cfg.meshVersion]
    + if cfg.monitoringEnabled then
        map[PROMETHEUS_SCRAPE := "true", PROMETHEUS_PORT := Itoa(cfg.metricsPort), PROMETHEUS_PATH := "/metrics"]
      else map[]
  }

  function MemberPath(key: string): string {
    "/" + "metadata" + "/" + "annotations" + "/" + Escape(key)
  }

  /** The operation one desired annotation needs, if any. */
  function AnnotationOp(existing: map<string, string>, key: string, value: string): seq<Operation> {
    if key !in existing then [Add(MemberPath(key), Str(value))]
    else if existing[key] != value then [Replace(MemberPath(key), Str(value))]
    else []
  }

  function AnnotationOpsFor(existing: map<string, string>, desired: map<string, string>, keys: seq<string>)
    : seq<Operation>
    requires forall k :: k in keys ==> k in desired
  {
    if keys == [] then []
    else AnnotationOp(existing, keys[0], desired[keys[0]]) + AnnotationOpsFor(existing, desired, keys[1..])
  }

  function StringsJson(m: map<string, string>): Json {
    Obj(map k | k in m :: Str(m[k]))
  }

  ghost function AnnotationOps(existing: Option<map<string, string>>, desired: map<string, string>): seq<Operation> {
    if desired == map[] then []
    else if existing.None? then [Add("/" + "metadata" + "/" + "annotations", StringsJson(desired))]
    else
      OrdersAreTotal();
      InOrderLists(STRING_ORDER, desired.Keys);
      AnnotationOpsFor(existing.value, desired, InOrder(STRING_ORDER, desired.Keys))
  }

  /** buildAnnotationsPatchOps. */
  method BuildAnnotationsPatchOps(existing: Option<map<string, string>>, desired: map<string, string>)
    returns (ops: seq<Operation>)
    ensures ops == AnnotationOps(existing, desired)
  {
    hide MemberPath, Sort, LexLE, SortedBy;
    ops := [];
    if desired == map[] {
      return;
    }
    if existing.None? {
      return [Add("/" + "metadata" + "/" + "annotations", StringsJson(desired))];
    }
    var walk := CollectKeys(desired.Keys);
    OrdersAreTotal();
    SortForgetsWalk(STRING_ORDER, walk, desired.Keys);
    InOrderLists(STRING_ORDER, desired.Keys);
    ops := CompareAnnotations(existing.value, desired, Sort(STRING_ORDER, walk));
  }

  /** The loop of buildAnnotationsPatchOps over the sorted keys. */
  method CompareAnnotations(existing: map<string, string>, desired: map<string, string>, keys: seq<string>)
    returns (ops: seq<Operation>)
    requires forall k :: k in keys ==> k in desired
    ensures ops == AnnotationOpsFor(existing, desired, keys)
  {
    hide MemberPath;
    ops := [];
    assert keys[..|keys|] == keys && keys[..0] == [];
    for i := 0 to |keys|
      invariant ops == AnnotationOpsFor(existing, desired, keys[..i])
    {
      var key := keys[i];
      AnnotationOpsSnoc(existing, desired, keys[..i], key);
      assert keys[..i + 1] == keys[..i] + [key];
      if key !in existing {
        ops := ops + [Add(MemberPath(key), Str(desired[key]))];
        continue;
      }
      if existing[key] != desired[key] {
        ops := ops + [Replace(MemberPath(key), Str(desired[key]))];
      }
    }
  }

  lemma {:induction false} AnnotationOpsSnoc(
    existing: map<string, string>, desired: map<string, string>, keys: seq<string>, key: string)
    requires key in desired && forall k :: k in keys ==> k in desired
    ensures forall k :: k in keys + [key] ==> k in desired
    ensures AnnotationOpsFor(existing, desired, keys + [key])
            == AnnotationOpsFor(existing, desired, keys) + AnnotationOp(existing, key, desired[key])
  {
    if keys == [] {
      assert keys + [key] == [key];
    } else {
      assert (keys + [key])[1..] == keys[1..] + [key];
      AnnotationOpsSnoc(existing, desired, keys[1..], key);
    }
  }

  /** The ports that must reach the application: positive, and not those of a container named like the sidecar. */
  function InboundPorts(containers: seq<Container>): set<int> {
    set c, p | c in containers && c.name != SIDECAR && p in c.ports && p > 0 :: p
  }

  function PortStrings(ports: seq<int>): seq<string> {
    if ports == [] then [] else [Itoa(ports[0])] + PortStrings(ports[1..])
  }

  ghost function PortList(containers: seq<Container>): string {
    Join(PortStrings(InOrder(INT_ORDER, InboundPorts(containers))), ',')
  }

  /** collectInboundPorts. */
  method CollectInboundPorts(containers: seq<Container>) returns (list: string)
    ensures list == PortList(containers)
  {
    var unique: set<int> := {};
    for i := 0 to |containers|
      invariant unique == InboundPorts(containers[..i])
    {
      var c := containers[i];
      assert containers[..i + 1] == containers[..i] + [c];
      if c.name == SIDECAR {
        continue;
      }
      for j := 0 to |c.ports|
        invariant unique == InboundPorts(containers[..i]) + (set p | p in c.ports[..j] && p > 0)
      {
        assert c.ports[..j + 1] == c.ports[..j] + [c.ports[j]];
        if c.ports[j] <= 0 {
          continue;
        }
        unique := unique + {c.ports[j]};
      }
      assert c.ports[..|c.ports|] == c.ports;
    }
    assert containers[..|containers|] == containers;
    if unique == {} {
      assert InOrder(INT_ORDER, unique) == [];
      return "";
    }
    var walk := CollectKeys(unique);
    var ports := Sort(INT_ORDER, walk);
    OrdersAreTotal();
    SortForgetsWalk(INT_ORDER, walk, unique);
    list := Join(PortStrings(ports), ',');
  }

  function UpTo(s: string, c: char): string {
    if s == [] || s[0] == c then [] else [s[0]] + UpTo(s[1..], c)
  }

  /** deriveAppTargetAddr. */
  function DeriveAppTargetAddr(inboundPorts: string): string {
    var ports := TrimSpace(inboundPorts);
    if ports == "" then DEFAULT_TARGET
    else
      var first := TrimSpace(UpTo(ports, ','));
      if first == "" then DEFAULT_TARGET else "127.0.0.1:" + first
  }

  /** Conversion to int32. */
  function Int32(n: int): (r: int)
    ensures -0x8000_0000 <= r < 0x8000_0000
  {
    (n + 0x8000_0000) % 0x1_0000_0000 - 0x8000_0000
  }

  function EnvVar(name: string, value: string): Json {
    Obj(map["name" := Str(name)] + if value == "" then map[] else map["value" := Str(value)])
  }

  function FieldEnvVar(name: string, path: string): Json {
    Obj(map["name" := Str(name),
            "valueFrom" := Obj(map["fieldRef" := Obj(map["fieldPath" := Str(path)])])])
  }

  function BoolText(b: bool): string {
    if b then "true" else "false"
  }

  function VolumeJson(): Json {
    Obj(map["name" := Str(MESH_CA),
            "secret" := Obj(map[
              "secretName" := Str("mesh-root-ca"),
              "items" := Arr([Obj(map["key" := Str("tls.crt"), "path" := Str("ca.crt")])])])])
  }

  const PULL_POLICY := "IfNotPresent"

  function NetAdmin(): Json {
    Obj(map["capabilities" := Obj(map["add" := Arr([Str("NET_ADMIN")])])])
  }

  function RunAs(uid: int): Json {
    Obj(map["runAsUser" := Num(uid), "runAsNonRoot" := Bool(true)])
  }

  function Quantities(cpu: string, memory: string): Json {
    Obj(map["cpu" := Str(cpu), "memory" := Str(memory)])
  }

  function SidecarResources(): Json {
    Obj(map["limits" := Quantities("1000m", "1Gi"), "requests" := Quantities("100m", "256Mi")])
  }

  function IptablesEnv(cfg: Config, inboundPorts: string): seq<Json> {
    [EnvVar("INBOUND_PORTS", inboundPorts),
     EnvVar("INBOUND_PLAIN_PORT", Itoa(cfg.inboundPlainPort)),
     EnvVar("OUTBOUND_PORT", Itoa(cfg.outboundPort)),
     EnvVar("EXCLUDE_INBOUND_PORTS", cfg.excludeInbound),
     EnvVar("EXCLUDE_OUTBOUND_IPS", cfg.excludeOutbound),
     EnvVar("UID", Itoa(cfg.sidecarUID))]
  }

  /** buildIptablesContainer. */
  function IptablesJson(cfg: Config, inboundPorts: string): Json {
    Obj(map[
      "name" := Str(IPTABLES),
      "image" := Str(cfg.iptablesImage),
      "imagePullPolicy" := Str(PULL_POLICY),
      "securityContext" := NetAdmin(),
      "resources" := Obj(map[]),
      "env" := Arr(IptablesEnv(cfg, inboundPorts))])
  }

  function PortJson(name: string, port: int, protocol: string): Json {
    Obj(map["name" := Str(name), "containerPort" := Num(Int32(port))]
        + if protocol == "" then map[] else map["protocol" := Str(protocol)])
  }

  function SidecarPorts(cfg: Config): seq<Json> {
    (if cfg.mtlsEnabled && cfg.inboundMTLSPort > 0 then [PortJson("mesh-mtls", cfg.inboundMTLSPort, "")] else [])
    + [PortJson("mesh-outbound", cfg.outboundPort, ""), PortJson("mesh-inbound", cfg.inboundPlainPort, ""),
       PortJson("mesh-metrics", cfg.metricsPort, "TCP")]
  }

  /** The variables of the sidecar, by what they are about. */
  function IdentityEnv(serviceAccountName: string, appTargetAddr: string): seq<Json> {
    [FieldEnvVar("POD_NAME", "metadata.name"),
     FieldEnvVar("POD_NAMESPACE", "metadata.namespace"),
     EnvVar("SERVICE_ACCOUNT", serviceAccountName),
     EnvVar("APP_TARGET_ADDR", appTargetAddr)]
  }

  function ListenerEnv(cfg: Config): seq<Json> {
    [EnvVar("INBOUND_PLAIN_PORT", Itoa(cfg.inboundPlainPort)),
     EnvVar("OUTBOUND_PORT", Itoa(cfg.outboundPort)),
     EnvVar("INBOUND_MTLS_PORT", Itoa(cfg.inboundMTLSPort)),
     EnvVar("MTLS_ENABLED", BoolText(cfg.mtlsEnabled)),
     EnvVar("METRICS_PORT", Itoa(cfg.metricsPort))]
  }

  function CertificateEnv(cfg: Config): seq<Json> {
    [EnvVar("BOOTSTRAP_CERTIFICATES", BoolText(cfg.mtlsEnabled)),
     EnvVar("CERT_FILE", "/etc/mesh/certs/tls.crt"),
     EnvVar("KEY_FILE", "/etc/mesh/certs/tls.key"),
     EnvVar("CA_FILE", "/etc/mesh/ca/ca.crt")]
  }

  function PolicyEnv(cfg: Config): seq<Json> {
    [EnvVar("LOAD_BALANCER_ALGORITHM", cfg.loadBalancerAlgorithm),
     EnvVar("COPY_MODE", cfg.copyMode),
     EnvVar("RETRY_ATTEMPTS", Itoa(cfg.retryAttempts)),
     EnvVar("TIMEOUT", cfg.connectTimeout),
     EnvVar("CIRCUIT_BREAKER_FAILURE_THRESHOLD", Itoa(cfg.breakerThreshold)),
     EnvVar("CIRCUIT_BREAKER_RECOVERY_TIME", cfg.breakerRecovery)]
  }

  /** buildSidecarContainer. */
  function SidecarJson(cfg: Config, serviceAccountName: string, appTargetAddr: string): Json {
    Obj(map[
      "name" := Str(SIDECAR),
      "image" := Str(cfg.sidecarImage),
      "imagePullPolicy" := Str(PULL_POLICY),
      "securityContext" := RunAs(cfg.sidecarUID),
      "resources" := SidecarResources(),
      "ports" := Arr(SidecarPorts(cfg)),
      "env" := Arr(IdentityEnv(serviceAccountName, appTargetAddr) + ListenerEnv(cfg) + CertificateEnv(cfg)
                   + PolicyEnv(cfg)),
      "volumeMounts" := Arr([
        Obj(map["name" := Str(MESH_CA), "mountPath" := Str("/etc/mesh/ca"), "readOnly" := Bool(true)])])])
  }

  predicate HasContainer(containers: seq<Container>, name: string) {
    exists i :: 0 <= i < |containers| && containers[i].name == name
  }

  method HasContainerByName(containers: seq<Container>, name: string) returns (found: bool)
    ensures found == HasContainer(containers, name)
  {
    for i := 0 to |containers|
      invariant !HasContainer(containers[..i], name)
    {
      if containers[i].name == name {
        return true;
      }
      assert containers[..i + 1] == containers[..i] + [containers[i]];
    }
    assert containers[..|containers|] == containers;
    found := false;
  }

  method HasVolumeByName(volumes: seq<string>, name: string) returns (found: bool)
    ensures found == (name in volumes)
  {
    for i := 0 to |volumes|
      invariant name !in volumes[..i]
    {
      if volumes[i] == name {
        return true;
      }
    }
    found := false;
  }

  function SpecPath(field: string): string {
    "/" + "spec" + "/" + field
  }

  /** The operation that puts an element into a list of the spec: a new list when there is none to extend. */
  function ListOp(field: string, isEmpty: bool, position: string, element: Json): Operation {
    if isEmpty then Add(SpecPath(field), Arr([element])) else Add(SpecPath(field) + "/" + position, element)
  }

  function AccountOps(pod: Pod): seq<Operation> {
    if TrimSpace(pod.serviceAccountName) == "" then
      [Add(SpecPath("serviceAccountName"), Str(ServiceAccountName(pod)))]
    else []
  }

  function VolumeOps(pod: Pod): seq<Operation> {
    if MESH_CA in pod.volumes then [] else [ListOp("volumes", pod.volumes == [], "-", VolumeJson())]
  }

  ghost function InitOps(cfg: Config, pod: Pod): seq<Operation> {
    if HasContainer(pod.initContainers, IPTABLES) then []
    else [ListOp("initContainers", pod.initContainers == [], "0", IptablesJson(cfg, PortList(pod.containers)))]
  }

  ghost function SidecarFor(cfg: Config, pod: Pod): Json {
    SidecarJson(cfg, ServiceAccountName(pod), DeriveAppTargetAddr(PortList(pod.containers)))
  }

  ghost function SidecarOps(cfg: Config, pod: Pod): seq<Operation> {
    if HasContainer(pod.containers, SIDECAR) then []
    else [ListOp("containers", pod.containers == [], "-", SidecarFor(cfg, pod))]
  }

  ghost function Patch(cfg: Config, pod: Pod): seq<Operation> {
    AccountOps(pod) + AnnotationOps(pod.annotations, DesiredAnnotations(cfg)) + VolumeOps(pod)
    + InitOps(cfg, pod) + SidecarOps(cfg, pod)
  }

  function Namespace(requested: string, pod: Pod): string {
    if TrimSpace(requested) == "" then TrimSpace(pod.namespace) else TrimSpace(requested)
  }

  ghost function Decide(cfg: Config, requested: string, pod: Pod): Decision {
    if Namespace(requested, pod) in cfg.ignoreNamespaces then Skip("ignored namespace")
    else if OptedOut(pod) then Skip("opt-out annotation")
    else if Patch(cfg, pod) == [] then Skip("already injected")
    else Mutate(Patch(cfg, pod))
  }

  /** Service.BuildPatch; the request is given by its namespace. */
  method BuildPatch(cfg: Config, request: Option<string>, pod: Option<Pod>) returns (answer: Answer)
    ensures answer == if request.None? then Rejected("admission request is nil")
                      else if pod.None? then Rejected("pod is nil")
                      else Decided(Decide(cfg, request.value, pod.value))
  {
    hide TrimSpace, OptedOut, Namespace, IptablesJson, SidecarJson, VolumeJson, DesiredAnnotations, PortList,
      AnnotationOps, DeriveAppTargetAddr, ServiceAccountName, HasContainer, ListOp, SpecPath;
    if request.None? {
      return Rejected("admission request is nil");
    }
    if pod.None? {
      return Rejected("pod is nil");
    }
    var p := pod.value;
    if Namespace(request.value, p) in cfg.ignoreNamespaces {
      return Decided(Skip("ignored namespace"));
    }
    if OptedOut(p) {
      return Decided(Skip("opt-out annotation"));
    }
    var serviceAccountName := ServiceAccountName(p);
    var operations := [];
    if TrimSpace(p.serviceAccountName) == "" {
      operations := operations + [Add(SpecPath("serviceAccountName"), Str(serviceAccountName))];
    }
    assert operations == AccountOps(p);
    var annotationOps := BuildAnnotationsPatchOps(p.annotations, DesiredAnnotations(cfg));
    operations := operations + annotationOps;
    var hasVolume := HasVolumeByName(p.volumes, MESH_CA);
    if !hasVolume {
      operations := operations + [ListOp("volumes", p.volumes == [], "-", VolumeJson())];
    }
    ghost var soFar := AccountOps(p) + annotationOps + VolumeOps(p);
    assert operations == soFar;
    var inboundPorts := CollectInboundPorts(p.containers);
    var appTargetAddr := DeriveAppTargetAddr(inboundPorts);
    var hasInit := HasContainerByName(p.initContainers, IPTABLES);
    if !hasInit {
      operations := operations
                    + [ListOp("initContainers", p.initContainers == [], "0", IptablesJson(cfg, inboundPorts))];
    }
    assert operations == soFar + InitOps(cfg, p);
    var hasSidecar := HasContainerByName(p.containers, SIDECAR);
    if !hasSidecar {
      var sidecar := SidecarJson(cfg, serviceAccountName, appTargetAddr);
      operations := operations + [ListOp("containers", p.containers == [], "-", sidecar)];
    }
    assert operations == Patch(cfg, p);
    hide Patch;
    if |operations| == 0 {
      return Decided(Skip("already injected"));
    }
    answer := Decided(Mutate(operations));
  }
}
