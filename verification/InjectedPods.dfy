/**
 What the patched document tells the containers that injection adds, and what they make of it: the sidecar's settings,
 and whether the init container runs at all.
 */
module InjectedPods {
  import opened Options
  import opened GoStrings
  import opened JsonPatch
  import opened Pods
  import opened Injector
  import opened InjectorProofs
  import opened Reinjection
  import opened Ports
  import opened InjectedEnv
  import SidecarConfig
  import InjectedSettings

  // ---- The added containers ----

  /** A port the application listens on: a positive one of a container that is not the sidecar. */
  predicate AppPort(pod: Pod, port: int) {
    port > 0 && exists c :: c in pod.containers && c.name != "sidecar" && port in c.ports
  }

  /** The spec after the patch, and its containers. */
  ghost function PatchedSpec(cfg: Config, pod: Pod, doc: Json): Json {
    match ApplyAll(doc, Patch(cfg, pod))
    case Some(patched) => Field(patched, "spec")
    case None => Null
  }

  ghost predicate NoSidecarYet(pod: Pod) {
    forall i :: 0 <= i < |pod.containers| ==> pod.containers[i].name != "sidecar"
  }

  ghost predicate NoInitYet(pod: Pod) {
    forall i :: 0 <= i < |pod.initContainers| ==> pod.initContainers[i].name != "iptables-init"
  }

  /** The container that goes last. */
  ghost function AddedSidecar(cfg: Config, pod: Pod, doc: Json): Json {
    var containers := Items(Field(PatchedSpec(cfg, pod, doc), "containers"));
    if containers == [] then Null else containers[|containers| - 1]
  }

  /** The init container that goes first. */
  ghost function AddedInit(cfg: Config, pod: Pod, doc: Json): Json {
    var inits := Items(Field(PatchedSpec(cfg, pod, doc), "initContainers"));
    if inits == [] then Null else inits[0]
  }

  lemma SidecarIsAdded(cfg: Config, pod: Pod, doc: Json)
    requires Decode(doc) == Some(pod) && HasParents(doc) && NoSidecarYet(pod)
    ensures AddedSidecar(cfg, pod, doc)
            == SidecarJson(cfg, ServiceAccountName(pod), DeriveAppTargetAddr(PortList(pod.containers)))
  {
    hide Patch, ApplyAll, SidecarJson, VolumeJson, IptablesJson, TrimSpace, SameOutside, Decode, PortList, Field, Items,
      ServiceAccountName, DeriveAppTargetAddr, HasParents, MarkNames;
    InjectionConserves(cfg, pod, doc);
    LastIsAdded(Items(Field(Field(doc, "spec"), "containers")), SidecarFor(cfg, pod));
  }

  lemma LastIsAdded(before: seq<Json>, added: Json)
    ensures before + [added] != [] && (before + [added])[|before + [added]| - 1] == added
  {
  }

  lemma InitIsAdded(cfg: Config, pod: Pod, doc: Json)
    requires Decode(doc) == Some(pod) && HasParents(doc) && NoInitYet(pod)
    ensures AddedInit(cfg, pod, doc) == IptablesJson(cfg, PortList(pod.containers))
  {
    hide Patch, ApplyAll, SidecarJson, VolumeJson, IptablesJson, TrimSpace, SameOutside, Decode, PortList, SidecarFor;
    InjectionConserves(cfg, pod, doc);
  }

  /** What the patched spec names as the account of the pod. */
  lemma AccountInSpec(cfg: Config, pod: Pod, doc: Json)
    requires Decode(doc) == Some(pod) && HasParents(doc)
    ensures TrimSpace(TextOf(Field(PatchedSpec(cfg, pod, doc), "serviceAccountName"))) == ServiceAccountName(pod)
  {
    hide Patch, ApplyAll, TrimSpace, DesiredAnnotations, HasContainer, ContainerPorts, Injected;
    PatchGivesInjected(cfg, pod, doc);
    InjectedDecodes(cfg, pod, doc);
    AccountIsTrimmed(pod);
  }

  lemma AccountIsTrimmed(pod: Pod)
    ensures SidecarConfig.Trimmed(ServiceAccountName(pod))
  {
    hide TrimSpace;
    AccountNotBlank(pod);
    TrimSpaceIdempotent(pod.serviceAccountName);
    DerivedIsTrimmed(pod);
  }

  lemma DerivedIsTrimmed(pod: Pod)
    ensures TrimSpace(DeriveServiceAccountName(pod)) == DeriveServiceAccountName(pod)
  {
    hide TrimSpace;
    if pod.labels.Some? {
      if "app" in pod.labels.value {
        TrimSpaceIdempotent(pod.labels.value["app"]);
      }
      if "app.kubernetes.io/name" in pod.labels.value {
        TrimSpaceIdempotent(pod.labels.value["app.kubernetes.io/name"]);
      }
    }
    OwnerIsTrimmed(pod.owners);
  }

  lemma {:induction false} OwnerIsTrimmed(owners: seq<Owner>)
    ensures TrimSpace(OwnerName(owners)) == OwnerName(owners)
  {
    if owners == [] {
      EndsTrimmed("default");
    } else {
      TrimSpaceIdempotent(owners[0].name);
      OwnerIsTrimmed(owners[1..]);
    }
  }

  lemma EndsTrimmed(s: string)
    requires s != "" && !IsSpace(s[0]) && !IsSpace(s[|s| - 1])
    ensures TrimSpace(s) == s
  {
  }

  /** The address on which the application is reached: its lowest port, or 8080 when it has none. */
  ghost predicate AppAddress(pod: Pod, addr: string) {
    if exists p :: AppPort(pod, p)
    then
      exists low ::
        AppPort(pod, low) && (forall p :: AppPort(pod, p) ==> low <= p) && addr == "127.0.0.1:" + Itoa(low)
    else addr == "127.0.0.1:8080"
  }

  lemma TargetIsAppAddress(pod: Pod)
    ensures AppAddress(pod, DeriveAppTargetAddr(PortList(pod.containers)))
  {
    hide DeriveAppTargetAddr, PortList;
    TargetIsLowestPort(pod.containers);
    forall p ensures p in InboundPorts(pod.containers) <==> AppPort(pod, p) {
    }
  }

  // ---- What they are told ----

  /** The sidecar is told where the application listens and which account the pod runs under. */
  lemma InjectedSidecarTold(cfg: Config, pod: Pod, doc: Json, fields: string -> string)
    requires Decode(doc) == Some(pod) && HasParents(doc) && NoSidecarYet(pod)
    ensures var c := AddedSidecar(cfg, pod, doc);
            && Field(c, "name") == Str("sidecar") && Field(c, "image") == Str(cfg.sidecarImage)
            && AppAddress(pod, Told(c, fields)("APP_TARGET_ADDR"))
            && Told(c, fields)("SERVICE_ACCOUNT")
               == TrimSpace(TextOf(Field(PatchedSpec(cfg, pod, doc), "serviceAccountName"))) != ""
  {
    hide AddedSidecar, PatchedSpec, TrimSpace, PortList, DeriveAppTargetAddr, Decode, AppAddress, Told,
      ServiceAccountName;
    SidecarIsAdded(cfg, pod, doc);
    AccountInSpec(cfg, pod, doc);
    AccountIsTrimmed(pod);
    TargetIsAppAddress(pod);
    var account, target := ServiceAccountName(pod), DeriveAppTargetAddr(PortList(pod.containers));
    SidecarIsNamed(cfg, account, target);
    hide SidecarJson;
    Places();
    ValuesAt(cfg, account, target, fields);
    hide Values, NAMES;
    SidecarTold(cfg, account, target, fields, 2);
    SidecarTold(cfg, account, target, fields, 3);
  }

  lemma SidecarIsNamed(cfg: Config, account: string, target: string)
    ensures var c := SidecarJson(cfg, account, target);
            && Field(c, "name") == Str("sidecar") && Field(c, "image") == Str(cfg.sidecarImage)
            && Field(Field(c, "securityContext"), "runAsUser") == Num(cfg.sidecarUID)
  {
    hide IdentityEnv, ListenerEnv, CertificateEnv, PolicyEnv, SidecarResources, SidecarPorts;
    assert "name"[0] == 'n' && "image"[0] == 'i' && "securityContext"[0] == 's';
  }

  /** The init container is told exactly the ports of the application, ascending, and what to leave alone. */
  lemma InjectedInitTold(cfg: Config, pod: Pod, doc: Json, fields: string -> string)
    requires Decode(doc) == Some(pod) && HasParents(doc) && NoInitYet(pod)
    ensures var env := Told(AddedInit(cfg, pod, doc), fields);
            && Ascending(ParsePorts(env("INBOUND_PORTS")))
            && (forall p :: p in ParsePorts(env("INBOUND_PORTS")) <==> AppPort(pod, p))
            && env("EXCLUDE_INBOUND_PORTS") == cfg.excludeInbound && env("EXCLUDE_OUTBOUND_IPS") == cfg.excludeOutbound
  {
    hide AddedInit, PortList, IptablesJson, Decode, Told, ParsePorts;
    InitIsAdded(cfg, pod, doc);
    InitTold(cfg, PortList(pod.containers), fields);
    PortListParses(pod.containers);
  }

  /** Both are told the same ports, the configured ones, and the user left alone is the one the sidecar runs as. */
  lemma ContainersAgree(cfg: Config, pod: Pod, doc: Json, fields: string -> string)
    requires Decode(doc) == Some(pod) && HasParents(doc) && NoSidecarYet(pod) && NoInitYet(pod)
    ensures var (c, i) := (AddedSidecar(cfg, pod, doc), AddedInit(cfg, pod, doc));
            var (s, init) := (Told(c, fields), Told(i, fields));
            && s("INBOUND_PLAIN_PORT") == init("INBOUND_PLAIN_PORT") == Itoa(cfg.inboundPlainPort)
            && s("OUTBOUND_PORT") == init("OUTBOUND_PORT") == Itoa(cfg.outboundPort)
            && Field(Field(c, "securityContext"), "runAsUser") == Num(cfg.sidecarUID)
            && init("UID") == Itoa(cfg.sidecarUID)
  {
    hide AddedSidecar, AddedInit, PortList, DeriveAppTargetAddr, Decode, Told, IptablesJson, ServiceAccountName;
    SidecarIsAdded(cfg, pod, doc);
    InitIsAdded(cfg, pod, doc);
    InitTold(cfg, PortList(pod.containers), fields);
    var account, target := ServiceAccountName(pod), DeriveAppTargetAddr(PortList(pod.containers));
    SidecarIsNamed(cfg, account, target);
    hide SidecarJson;
    Places();
    ValuesAt(cfg, account, target, fields);
    hide Values, NAMES;
    SidecarTold(cfg, account, target, fields, 4);
    SidecarTold(cfg, account, target, fields, 5);
  }

  /** The script of the init container stops when one of these is missing or empty. */
  predicate InitRuns(env: SidecarConfig.Env) {
    env("INBOUND_PORTS") != "" && env("INBOUND_PLAIN_PORT") != "" && env("OUTBOUND_PORT") != "" && env("UID") != ""
  }

  /** So an injected pod gets past its init container exactly when its containers declare a port. */
  lemma InitRunsIff(cfg: Config, pod: Pod, doc: Json, fields: string -> string)
    requires Decode(doc) == Some(pod) && HasParents(doc) && NoInitYet(pod)
    ensures InitRuns(Told(AddedInit(cfg, pod, doc), fields)) <==> exists p :: AppPort(pod, p)
  {
    hide AddedInit, PortList, IptablesJson, Decode, Told, Itoa;
    InitIsAdded(cfg, pod, doc);
    InitTold(cfg, PortList(pod.containers), fields);
    ItoaPlain(cfg.inboundPlainPort);
    ItoaPlain(cfg.outboundPort);
    ItoaPlain(cfg.sidecarUID);
    ListedIff(pod);
  }

  lemma ListedIff(pod: Pod)
    ensures PortList(pod.containers) != "" <==> exists p :: AppPort(pod, p)
  {
    hide PortList;
    PortListParses(pod.containers);
    var ports := ParsePorts(PortList(pod.containers));
    forall p ensures p in ports <==> AppPort(pod, p) {
    }
    if PortList(pod.containers) != "" {
      assert ports != [];
      assert AppPort(pod, ports[0]);
    }
  }

  lemma AppAddressSplits(pod: Pod, addr: string)
    requires AppAddress(pod, addr)
    ensures SidecarConfig.SplitsHostPort(addr) && SidecarConfig.Trimmed(addr)
  {
    hide SidecarConfig.SplitsHostPort, Itoa;
    if exists p :: AppPort(pod, p) {
      var low :| addr == "127.0.0.1:" + Itoa(low);
      SidecarConfig.LoopbackSplits(low);
    } else {
      SidecarConfig.LoopbackSplits(8080);
      DefaultPortText();
      assert "127.0.0.1:8080" == "127.0.0.1:" + "8080";
    }
  }

  lemma DefaultPortText()
    ensures Itoa(8080) == "8080"
  {
    assert Digits(8) == "8" && Digits(80) == "80" && Digits(808) == "808";
  }

  /** For every document the added sidecar starts, with the settings of the webhook, exactly under those conditions. */
  lemma InjectedSidecarStartsIff(
    cfg: Config, pod: Pod, doc: Json, duration: string -> Option<int>, fields: string -> string)
    requires Decode(doc) == Some(pod) && HasParents(doc) && NoSidecarYet(pod)
    requires InjectedSettings.HookAccepts(cfg, duration) && InjectedSettings.ReadableFields(fields)
    ensures exists target :: AppAddress(pod, target)
              && InjectedSettings.LoadedAsTold(
                   cfg, TrimSpace(TextOf(Field(PatchedSpec(cfg, pod, doc), "serviceAccountName"))), target, duration,
                   fields, SidecarConfig.Load(Told(AddedSidecar(cfg, pod, doc), fields), duration))
  {
    hide AddedSidecar, PatchedSpec, PortList, DeriveAppTargetAddr, Decode, AppAddress, ServiceAccountName, SidecarJson,
      SidecarConfig.Load, SidecarConfig.Trimmed, InjectedSettings.HookAccepts, SidecarConfig.SplitsHostPort,
      InjectedSettings.LoadedAsTold, InjectedSettings.ReadableFields, Told;
    var account, target := ServiceAccountName(pod), DeriveAppTargetAddr(PortList(pod.containers));
    SidecarIsAdded(cfg, pod, doc);
    AccountInSpec(cfg, pod, doc);
    AccountIsTrimmed(pod);
    TargetIsAppAddress(pod);
    AppAddressSplits(pod, target);
    InjectedSettings.SidecarStartsIff(cfg, account, target, duration, fields);
  }

  // ---- What else the containers need ----

  /** The container declares a port of that name, number and protocol, if any. */
  predicate Declares(container: Json, name: string, port: int, protocol: string) {
    exists p :: p in Items(Field(container, "ports")) && Field(p, "name") == Str(name)
      && Field(p, "containerPort") == Num(port)
      && Field(p, "protocol") == if protocol == "" then Null else Str(protocol)
  }

  predicate ValidPorts(cfg: Config) {
    && 0 < cfg.outboundPort < 65536 && 0 < cfg.inboundPlainPort < 65536
    && 0 <= cfg.inboundMTLSPort < 65536 && 0 < cfg.metricsPort < 65536
  }

  /** The sidecar declares the ports it is told to listen on, and the pod is scraped on its metrics port. */
  lemma PortsAreDeclared(cfg: Config, pod: Pod, doc: Json)
    requires Decode(doc) == Some(pod) && HasParents(doc) && NoSidecarYet(pod)
    requires ValidPorts(cfg)
    ensures var c := AddedSidecar(cfg, pod, doc);
            && Declares(c, "mesh-inbound", cfg.inboundPlainPort, "")
            && Declares(c, "mesh-outbound", cfg.outboundPort, "")
            && Declares(c, "mesh-metrics", cfg.metricsPort, "TCP")
            && (cfg.mtlsEnabled && cfg.inboundMTLSPort > 0 ==> Declares(c, "mesh-mtls", cfg.inboundMTLSPort, ""))
  {
    hide AddedSidecar, PortList, DeriveAppTargetAddr, Decode, ServiceAccountName, SidecarJson, Declares;
    var account, target := ServiceAccountName(pod), DeriveAppTargetAddr(PortList(pod.containers));
    SidecarIsAdded(cfg, pod, doc);
    SidecarDeclares(cfg, account, target);
  }

  lemma SidecarDeclares(cfg: Config, account: string, target: string)
    requires ValidPorts(cfg)
    ensures var c := SidecarJson(cfg, account, target);
            && Declares(c, "mesh-inbound", cfg.inboundPlainPort, "")
            && Declares(c, "mesh-outbound", cfg.outboundPort, "")
            && Declares(c, "mesh-metrics", cfg.metricsPort, "TCP")
            && (cfg.mtlsEnabled && cfg.inboundMTLSPort > 0 ==> Declares(c, "mesh-mtls", cfg.inboundMTLSPort, ""))
  {
    hide IdentityEnv, ListenerEnv, CertificateEnv, PolicyEnv, SidecarResources, RunAs, PortJson, Field;
    PortWritten("mesh-inbound", cfg.inboundPlainPort, "");
    PortWritten("mesh-outbound", cfg.outboundPort, "");
    PortWritten("mesh-metrics", cfg.metricsPort, "TCP");
    PortWritten("mesh-mtls", cfg.inboundMTLSPort, "");
    var ports := Items(Field(SidecarJson(cfg, account, target), "ports"));
    PortsField(cfg, account, target);
    assert PortJson("mesh-inbound", cfg.inboundPlainPort, "") in ports;
    assert PortJson("mesh-outbound", cfg.outboundPort, "") in ports;
    assert PortJson("mesh-metrics", cfg.metricsPort, "TCP") in ports;
    assert cfg.mtlsEnabled && cfg.inboundMTLSPort > 0 ==> PortJson("mesh-mtls", cfg.inboundMTLSPort, "") in ports;
  }

  lemma PortsField(cfg: Config, account: string, target: string)
    ensures Items(Field(SidecarJson(cfg, account, target), "ports")) == SidecarPorts(cfg)
  {
    hide IdentityEnv, ListenerEnv, CertificateEnv, PolicyEnv, SidecarResources, RunAs, SidecarPorts;
    assert "ports"[0] == 'p';
  }

  lemma PortWritten(name: string, port: int, protocol: string)
    requires 0 <= port < 65536
    ensures var p := PortJson(name, port, protocol);
            && Field(p, "name") == Str(name) && Field(p, "containerPort") == Num(port)
            && Field(p, "protocol") == if protocol == "" then Null else Str(protocol)
  {
    assert |"name"| == 4 && |"containerPort"| == 13 && |"protocol"| == 8;
  }

  /** The pod is marked as injected, and with monitoring on it is scraped where the sidecar serves its metrics. */
  lemma AnnotationsTell(cfg: Config, pod: Pod, doc: Json)
    requires Decode(doc) == Some(pod) && HasParents(doc)
    ensures var after := ApplyAll(doc, Patch(cfg, pod));
            && after.Some? && Decode(after.value).Some? && Decode(after.value).value.annotations.Some?
            && var marks := Decode(after.value).value.annotations.value;
            && "sidecar.mesh.io/injected" in marks && marks["sidecar.mesh.io/injected"] == "true"
            && "sidecar.mesh.io/version" in marks && marks["sidecar.mesh.io/version"] == cfg.meshVersion
            && (cfg.monitoringEnabled ==>
                  && "prometheus.io/scrape" in marks && marks["prometheus.io/scrape"] == "true"
                  && "prometheus.io/port" in marks && marks["prometheus.io/port"] == Itoa(cfg.metricsPort)
                  && "prometheus.io/path" in marks && marks["prometheus.io/path"] == "/metrics")
  {
    hide Patch, ApplyAll, Decode, TrimSpace, HasContainer, ContainerPorts, Injected, Itoa, ServiceAccountName;
    PatchGivesInjected(cfg, pod, doc);
    InjectedDecodes(cfg, pod, doc);
    MarksOf(cfg);
  }

  lemma MarksOf(cfg: Config)
    ensures var marks := DesiredAnnotations(cfg);
            && "sidecar.mesh.io/injected" in marks && marks["sidecar.mesh.io/injected"] == "true"
            && "sidecar.mesh.io/version" in marks && marks["sidecar.mesh.io/version"] == cfg.meshVersion
            && (cfg.monitoringEnabled ==>
                  && "prometheus.io/scrape" in marks && marks["prometheus.io/scrape"] == "true"
                  && "prometheus.io/port" in marks && marks["prometheus.io/port"] == Itoa(cfg.metricsPort)
                  && "prometheus.io/path" in marks && marks["prometheus.io/path"] == "/metrics")
  {
    hide Itoa;
    assert |"sidecar.mesh.io/injected"| == 24 && |"sidecar.mesh.io/version"| == 23;
    assert |"prometheus.io/scrape"| == 20 && |"prometheus.io/port"| == 18 && |"prometheus.io/path"| == 18;
    assert "prometheus.io/port"[15] == 'o' && "prometheus.io/path"[15] == 'a';
  }

  /** The volume that goes last. */
  ghost function AddedVolume(cfg: Config, pod: Pod, doc: Json): Json {
    var volumes := Items(Field(PatchedSpec(cfg, pod, doc), "volumes"));
    if volumes == [] then Null else volumes[|volumes| - 1]
  }

  /** A file of the secret in the volume, at the given path below its mount point. */
  predicate Holds(volume: Json, secretName: string, key: string, path: string) {
    var secret := Field(volume, "secret");
    && Field(secret, "secretName") == Str(secretName)
    && exists item :: item in Items(Field(secret, "items"))
         && Field(item, "key") == Str(key) && Field(item, "path") == Str(path)
  }

  /** The container mounts the volume, for reading only. */
  predicate Mounts(container: Json, volume: Json, mountPath: string) {
    exists m :: m in Items(Field(container, "volumeMounts"))
      && Field(m, "name") == Field(volume, "name") && Field(m, "mountPath") == Str(mountPath)
      && Field(m, "readOnly") == Bool(true)
  }

  /** The file in which the sidecar is told to find the root certificate is the one its volume holds. */
  lemma CAFileIsMounted(cfg: Config, pod: Pod, doc: Json, fields: string -> string)
    requires Decode(doc) == Some(pod) && HasParents(doc) && NoSidecarYet(pod) && "mesh-ca" !in pod.volumes
    ensures var (c, v) := (AddedSidecar(cfg, pod, doc), AddedVolume(cfg, pod, doc));
            && Field(v, "name") == Str("mesh-ca") && Holds(v, "mesh-root-ca", "tls.crt", "ca.crt")
            && Mounts(c, v, "/etc/mesh/ca") && Told(c, fields)("CA_FILE") == "/etc/mesh/ca" + "/" + "ca.crt"
  {
    hide AddedSidecar, AddedVolume, PortList, DeriveAppTargetAddr, Decode, ServiceAccountName, Holds, Mounts, Told,
      SidecarJson, VolumeJson, Field, Items, Values, NAMES;
    var account, target := ServiceAccountName(pod), DeriveAppTargetAddr(PortList(pod.containers));
    SidecarIsAdded(cfg, pod, doc);
    VolumeIsAdded(cfg, pod, doc);
    VolumeHolds();
    SidecarMounts(cfg, account, target);
    Places();
    ValuesAt(cfg, account, target, fields);
    SidecarTold(cfg, account, target, fields, 12);
    assert "/etc/mesh/ca" + "/" + "ca.crt" == "/etc/mesh/ca/ca.crt";
  }

  lemma VolumeIsAdded(cfg: Config, pod: Pod, doc: Json)
    requires Decode(doc) == Some(pod) && HasParents(doc) && "mesh-ca" !in pod.volumes
    ensures AddedVolume(cfg, pod, doc) == VolumeJson()
  {
    hide Patch, ApplyAll, VolumeJson, IptablesJson, SidecarFor, TrimSpace, SameOutside, Decode, PortList, HasContainer,
      Field, Items, HasParents, MarkNames;
    InjectionConserves(cfg, pod, doc);
    LastIsAdded(Items(Field(Field(doc, "spec"), "volumes")), VolumeJson());
  }

  lemma VolumeHolds()
    ensures Field(VolumeJson(), "name") == Str("mesh-ca") && Holds(VolumeJson(), "mesh-root-ca", "tls.crt", "ca.crt")
  {
    var secret := Field(VolumeJson(), "secret");
    assert |"name"| == 4 && |"secret"| == 6 && |"secretName"| == 10 && |"items"| == 5 && |"key"| == 3 && |"path"| == 4;
    assert Items(Field(secret, "items")) == [Obj(map["key" := Str("tls.crt"), "path" := Str("ca.crt")])];
    assert Obj(map["key" := Str("tls.crt"), "path" := Str("ca.crt")]) in Items(Field(secret, "items"));
  }

  lemma SidecarMounts(cfg: Config, account: string, target: string)
    ensures Mounts(SidecarJson(cfg, account, target), VolumeJson(), "/etc/mesh/ca")
  {
    hide IdentityEnv, ListenerEnv, CertificateEnv, PolicyEnv, SidecarResources, RunAs, SidecarPorts;
    var mount := Obj(map["name" := Str(MESH_CA), "mountPath" := Str("/etc/mesh/ca"), "readOnly" := Bool(true)]);
    assert "volumeMounts"[0] == 'v' && |"name"| == 4 && |"mountPath"| == 9 && |"readOnly"| == 8 && |"secret"| == 6;
    assert Items(Field(SidecarJson(cfg, account, target), "volumeMounts")) == [mount];
    assert mount in [mount];
  }

  /** The images, users, rights and resources the two containers get. */
  lemma ContainersAsConfigured(cfg: Config, pod: Pod, doc: Json)
    requires Decode(doc) == Some(pod) && HasParents(doc) && NoSidecarYet(pod) && NoInitYet(pod)
    ensures var (c, i) := (AddedSidecar(cfg, pod, doc), AddedInit(cfg, pod, doc));
            && Field(c, "image") == Str(cfg.sidecarImage) && Field(i, "image") == Str(cfg.iptablesImage)
            && Field(i, "name") == Str("iptables-init") && Field(i, "resources") == Obj(map[])
            && Field(c, "imagePullPolicy") == Field(i, "imagePullPolicy") == Str("IfNotPresent")
            && Field(Field(c, "securityContext"), "runAsNonRoot") == Bool(true)
            && Field(Field(Field(i, "securityContext"), "capabilities"), "add") == Arr([Str("NET_ADMIN")])
            && Needs(c, "limits", "1000m", "1Gi") && Needs(c, "requests", "100m", "256Mi")
  {
    hide AddedSidecar, AddedInit, PortList, DeriveAppTargetAddr, Decode, ServiceAccountName, Needs;
    SidecarIsAdded(cfg, pod, doc);
    InitIsAdded(cfg, pod, doc);
    SidecarAsConfigured(cfg, ServiceAccountName(pod), DeriveAppTargetAddr(PortList(pod.containers)));
    hide SidecarJson;
    InitAsConfigured(cfg, PortList(pod.containers));
  }

  predicate Needs(container: Json, kind: string, cpu: string, memory: string) {
    var quantities := Field(Field(container, "resources"), kind);
    Field(quantities, "cpu") == Str(cpu) && Field(quantities, "memory") == Str(memory)
  }

  lemma SidecarAsConfigured(cfg: Config, account: string, target: string)
    ensures var c := SidecarJson(cfg, account, target);
            && Field(c, "image") == Str(cfg.sidecarImage) && Field(c, "imagePullPolicy") == Str("IfNotPresent")
            && Field(Field(c, "securityContext"), "runAsNonRoot") == Bool(true)
            && Needs(c, "limits", "1000m", "1Gi") && Needs(c, "requests", "100m", "256Mi")
  {
    hide SidecarJson;
    SidecarMembers(cfg, account, target);
    assert |"limits"| == 6 && |"requests"| == 8 && |"cpu"| == 3 && |"memory"| == 6;
  }

  lemma SidecarMembers(cfg: Config, account: string, target: string)
    ensures var c := SidecarJson(cfg, account, target);
            && Field(c, "image") == Str(cfg.sidecarImage) && Field(c, "imagePullPolicy") == Str("IfNotPresent")
            && Field(c, "resources") == SidecarResources() && Field(c, "securityContext") == RunAs(cfg.sidecarUID)
  {
    hide IdentityEnv, ListenerEnv, CertificateEnv, PolicyEnv, SidecarPorts, SidecarResources, RunAs;
    assert "image"[0] == 'i' && "securityContext"[0] == 's' && "resources"[0] == 'r' && |"imagePullPolicy"| == 15;
  }

  lemma InitAsConfigured(cfg: Config, ports: string)
    ensures var i := IptablesJson(cfg, ports);
            && Field(i, "name") == Str("iptables-init") && Field(i, "image") == Str(cfg.iptablesImage)
            && Field(i, "imagePullPolicy") == Str("IfNotPresent") && Field(i, "resources") == Obj(map[])
            && Field(Field(Field(i, "securityContext"), "capabilities"), "add") == Arr([Str("NET_ADMIN")])
  {
    hide IptablesEnv;
    assert "name"[0] == 'n' && "image"[0] == 'i' && "securityContext"[0] == 's' && |"imagePullPolicy"| == 15;
    assert "resources"[0] == 'r';
    assert Field(IptablesJson(cfg, ports), "securityContext") == NetAdmin();
  }
}
