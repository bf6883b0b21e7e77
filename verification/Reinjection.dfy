/** The patched pod as the webhook would see it again: nothing else changed, and nothing is left to inject. */
module Reinjection {
  import opened Options
  import opened GoStrings
  import opened JsonPatch
  import opened Pods
  import opened Sorting
  import opened Injector
  import opened InjectorProofs

  function ContainerPorts(cfg: Config): seq<int> {
    (if cfg.mtlsEnabled && cfg.inboundMTLSPort > 0 then [Int32(cfg.inboundMTLSPort)] else [])
    + [Int32(cfg.outboundPort), Int32(cfg.inboundPlainPort), Int32(cfg.metricsPort)]
  }

  /** The pod the API server admits, as the webhook would see it again. */
  function PodAfter(cfg: Config, pod: Pod): Pod {
    pod.(
      annotations := Some((if pod.annotations.Some? then pod.annotations.value else map[]) + DesiredAnnotations(cfg)),
      serviceAccountName :=
        if TrimSpace(pod.serviceAccountName) == "" then ServiceAccountName(pod) else pod.serviceAccountName,
      volumes := pod.volumes + if MESH_CA in pod.volumes then [] else [MESH_CA],
      initContainers :=
        (if HasContainer(pod.initContainers, IPTABLES) then [] else [Container(IPTABLES, [])]) + pod.initContainers,
      containers :=
        pod.containers + if HasContainer(pod.containers, SIDECAR) then [] else [Container(SIDECAR, ContainerPorts(cfg))])
  }

  lemma AnnotationsAfterDecode(j: Json, existing: Option<map<string, string>>, desired: map<string, string>)
    requires AsStringMap(j) == Some(existing)
    ensures AsStringMap(AnnotationsAfter(j, existing, desired))
            == Some(Some((if existing.Some? then existing.value else map[]) + desired))
  {
    var after := AnnotationsAfter(j, existing, desired).fields;
    var merged := (if existing.Some? then existing.value else map[]) + desired;
    assert after.Keys == merged.Keys;
    assert Decodable(after) && Strings(after) == merged;
  }

  lemma VolumeDecodes()
    ensures AsVolume(VolumeJson()) == Some(MESH_CA)
  {
  }

  lemma IptablesDecodes(cfg: Config, ports: string)
    ensures AsContainer(IptablesJson(cfg, ports)) == Some(Container(IPTABLES, []))
  {
    hide EnvVar, Itoa, DecodeAll, NetAdmin;
    var j := IptablesJson(cfg, ports);
    assert "ports"[0] == 'p' && "name"[0] == 'n' && "image"[0] == 'i' && "imagePullPolicy"[0] == 'i'
        && "env"[0] == 'e' && "securityContext"[0] == 's' && "resources"[0] == 'r';
    assert Field(j, "ports") == Null;
  }

  lemma PortDecodes(name: string, port: int, protocol: string)
    ensures AsPort(PortJson(name, port, protocol)) == Some(Int32(port))
  {
  }

  lemma SidecarPortsDecode(cfg: Config)
    ensures DecodeAll(SidecarPorts(cfg), AsPort) == Some(ContainerPorts(cfg))
  {
    hide PortJson, Int32, AsPort, DecodeAll;
    var a := PortJson("mesh-outbound", cfg.outboundPort, "");
    var b := PortJson("mesh-inbound", cfg.inboundPlainPort, "");
    var c := PortJson("mesh-metrics", cfg.metricsPort, "TCP");
    PortDecodes("mesh-outbound", cfg.outboundPort, "");
    PortDecodes("mesh-inbound", cfg.inboundPlainPort, "");
    PortDecodes("mesh-metrics", cfg.metricsPort, "TCP");
    OneDecodes(a, AsPort, Int32(cfg.outboundPort));
    OneDecodes(b, AsPort, Int32(cfg.inboundPlainPort));
    OneDecodes(c, AsPort, Int32(cfg.metricsPort));
    DecodeAllConcat([a], [b], AsPort);
    DecodeAllConcat([a] + [b], [c], AsPort);
    assert [a] + [b] + [c] == [a, b, c];
    var three := [Int32(cfg.outboundPort), Int32(cfg.inboundPlainPort), Int32(cfg.metricsPort)];
    assert [Int32(cfg.outboundPort)] + [Int32(cfg.inboundPlainPort)] + [Int32(cfg.metricsPort)] == three;
    if cfg.mtlsEnabled && cfg.inboundMTLSPort > 0 {
      var m := PortJson("mesh-mtls", cfg.inboundMTLSPort, "");
      PortDecodes("mesh-mtls", cfg.inboundMTLSPort, "");
      OneDecodes(m, AsPort, Int32(cfg.inboundMTLSPort));
      DecodeAllConcat([m], [a, b, c], AsPort);
    } else {
      assert SidecarPorts(cfg) == [a, b, c] && ContainerPorts(cfg) == three;
    }
  }

  lemma SidecarDecodes(cfg: Config, account: string, target: string)
    ensures AsContainer(SidecarJson(cfg, account, target)) == Some(Container(SIDECAR, ContainerPorts(cfg)))
  {
    hide SidecarPorts, ContainerPorts, EnvVar, FieldEnvVar, BoolText, RunAs, SidecarResources;
    SidecarPortsDecode(cfg);
    var j := SidecarJson(cfg, account, target);
    assert "ports"[0] == 'p' && "name"[0] == 'n' && "image"[0] == 'i' && "imagePullPolicy"[0] == 'i'
        && "env"[0] == 'e' && "volumeMounts"[0] == 'v' && "securityContext"[0] == 's' && "resources"[0] == 'r';
    assert Field(j, "ports") == Arr(SidecarPorts(cfg)) && Field(j, "name") == Str(SIDECAR);
  }

  lemma OneDecodes<T>(j: Json, element: Json -> Option<T>, x: T)
    requires element(j) == Some(x)
    ensures DecodeAll([j], element) == Some([x])
  {
    assert [j][1..] == [];
    assert [x] + [] == [x];
  }

  /** What injection writes to a member of the spec, if anything. */
  ghost function SpecChange(cfg: Config, pod: Pod, spec: Json, name: string): Option<Json> {
    if name == "serviceAccountName" && TrimSpace(pod.serviceAccountName) == "" then
      Some(Str(ServiceAccountName(pod)))
    else if name == "volumes" && MESH_CA !in pod.volumes then
      Some(Arr(Items(Field(spec, "volumes")) + [VolumeJson()]))
    else if name == "initContainers" && !HasContainer(pod.initContainers, IPTABLES) then
      Some(Arr([IptablesJson(cfg, PortList(pod.containers))] + Items(Field(spec, "initContainers"))))
    else if name == "containers" && !HasContainer(pod.containers, SIDECAR) then
      Some(Arr(Items(Field(spec, "containers")) + [SidecarFor(cfg, pod)]))
    else None
  }

  /** Each member of the spec is either the written one or the old one. */
  lemma SpecMember(cfg: Config, pod: Pod, spec: Json, name: string)
    requires spec.Obj?
    ensures var change, after := SpecChange(cfg, pod, spec, name), SpecAfter(cfg, pod, spec);
            if change.Some? then name in after && after[name] == change.value
            else (name in after <==> name in spec.fields) && (name in after ==> after[name] == spec.fields[name])
  {
    hide VolumeJson, IptablesJson, SidecarFor, HasContainer, PortList, TrimSpace, ServiceAccountName, Field, Items;
    ListNamesDiffer();
  }

  lemma MetadataAfterDecodes(meta: Json, annotations: Json)
    requires meta.Obj?
    ensures DecodeMetadata(Obj(meta.fields["annotations" := annotations]))
            == DecodeMetadata(meta).(annotations := AsStringMap(annotations))
  {
  }

  lemma AppendedDecodes<T>(list: Json, element: Json -> Option<T>, j: Json, x: T)
    requires AsList(list, element).Some? && element(j) == Some(x)
    ensures AsList(Arr(Items(list) + [j]), element) == Some(AsList(list, element).value + [x])
    ensures AsList(Arr([j] + Items(list)), element) == Some([x] + AsList(list, element).value)
  {
    var decoded := AsList(list, element).value;
    OneDecodes(j, element, x);
    var items := Items(list);
    assert DecodeAll(items, element) == Some(decoded);
    DecodeAllConcat(items, [j], element);
    DecodeAllConcat([j], items, element);
  }

  lemma SameLists(pod: Pod)
    ensures pod.volumes + [] == pod.volumes && pod.containers + [] == pod.containers
    ensures [] + pod.initContainers == pod.initContainers
  {
  }

  lemma SpecAfterDecodes(cfg: Config, pod: Pod, spec: Json)
    requires spec.Obj?
    requires DecodeSpec(spec)
             == Spec(Some(pod.serviceAccountName), Some(pod.volumes), Some(pod.initContainers), Some(pod.containers))
    ensures var after := PodAfter(cfg, pod);
            DecodeSpec(Obj(SpecAfter(cfg, pod, spec)))
            == Spec(Some(after.serviceAccountName), Some(after.volumes), Some(after.initContainers),
                    Some(after.containers))
  {
    hide SpecAfter, AsList, AsVolume, AsContainer, VolumeJson, IptablesJson, SidecarJson, HasContainer, PortList,
      TrimSpace, ServiceAccountName, ContainerPorts, Items, DeriveAppTargetAddr, DesiredAnnotations;
    ListNamesDiffer();
    SameLists(pod);
    SpecMember(cfg, pod, spec, "serviceAccountName");
    SpecMember(cfg, pod, spec, "volumes");
    SpecMember(cfg, pod, spec, "initContainers");
    SpecMember(cfg, pod, spec, "containers");
    VolumeDecodes();
    IptablesDecodes(cfg, PortList(pod.containers));
    SidecarDecodes(cfg, ServiceAccountName(pod), DeriveAppTargetAddr(PortList(pod.containers)));
    AppendedDecodes(Field(spec, "volumes"), AsVolume, VolumeJson(), MESH_CA);
    AppendedDecodes(Field(spec, "initContainers"), AsContainer, IptablesJson(cfg, PortList(pod.containers)),
                    Container(IPTABLES, []));
    AppendedDecodes(Field(spec, "containers"), AsContainer, SidecarFor(cfg, pod),
                    Container(SIDECAR, ContainerPorts(cfg)));
  }

  /** The intended document decodes to the intended pod. */
  lemma InjectedDecodes(cfg: Config, pod: Pod, doc: Json)
    requires Decode(doc) == Some(pod) && HasParents(doc)
    ensures Decode(Injected(cfg, pod, doc)) == Some(PodAfter(cfg, pod))
  {
    hide SpecAfter, AsList, AsStringMap, AsString, AnnotationsAfter, DesiredAnnotations, TrimSpace,
      ServiceAccountName, HasContainer, ContainerPorts;
    var meta, spec := doc.fields["metadata"], doc.fields["spec"];
    var annotations := AnnotationsAfter(Field(meta, "annotations"), pod.annotations, DesiredAnnotations(cfg));
    var after := Injected(cfg, pod, doc);
    assert "metadata"[0] == 'm' && "spec"[0] == 's';
    assert Field(after, "metadata") == Obj(meta.fields["annotations" := annotations]);
    assert Field(after, "spec") == Obj(SpecAfter(cfg, pod, spec));
    MetadataAfterDecodes(meta, annotations);
    AnnotationsAfterDecode(Field(meta, "annotations"), pod.annotations, DesiredAnnotations(cfg));
    SpecAfterDecodes(cfg, pod, spec);
  }

  // ---- Idempotence ----

  lemma {:induction false} OwnerNameNotBlank(owners: seq<Owner>)
    ensures TrimSpace(OwnerName(owners)) != ""
  {
    if owners == [] {
      DefaultIsTrimmed();
    } else if owners[0].controller && TrimSpace(owners[0].name) != "" {
      TrimSpaceIdempotent(owners[0].name);
    } else {
      OwnerNameNotBlank(owners[1..]);
    }
  }

  predicate Names(owner: Owner) {
    owner.controller && TrimSpace(owner.name) != ""
  }

  /** The owner that names the account is the first controlling one with a name; without any it is "default". */
  lemma {:induction false} FirstOwnerNames(owners: seq<Owner>, i: nat)
    requires i <= |owners| && (i < |owners| ==> Names(owners[i]))
    requires forall j :: 0 <= j < i ==> !Names(owners[j])
    ensures OwnerName(owners) == if i < |owners| then TrimSpace(owners[i].name) else "default"
  {
    hide TrimSpace;
    if i > 0 {
      FirstOwnerNames(owners[1..], i - 1);
    }
  }

  lemma DefaultIsTrimmed()
    ensures TrimSpace("default") != ""
  {
    var s := "default";
    assert s[0] == 'd' && s[|s| - 1] == 't';
    assert TrimLeft(s) == s && TrimRight(s) == s;
  }

  /** The trimmed value of a label, empty when it is missing. */
  function LabelText(pod: Pod, key: string): string {
    if pod.labels == None || key !in pod.labels.value then "" else TrimSpace(pod.labels.value[key])
  }

  /** The explicit account name goes first, then the two labels in this order, then the owners. */
  lemma AccountSource(pod: Pod)
    ensures ServiceAccountName(pod)
            == if TrimSpace(pod.serviceAccountName) != "" then TrimSpace(pod.serviceAccountName)
               else if LabelText(pod, "app") != "" then LabelText(pod, "app")
               else if LabelText(pod, "app.kubernetes.io/name") != "" then LabelText(pod, "app.kubernetes.io/name")
               else OwnerName(pod.owners)
  {
  }

  /** The account name a pod is given is never blank. */
  lemma AccountNotBlank(pod: Pod)
    ensures TrimSpace(ServiceAccountName(pod)) != ""
  {
    hide TrimSpace;
    TrimSpaceIdempotent(pod.serviceAccountName);
    if pod.labels.Some? {
      if "app" in pod.labels.value {
        TrimSpaceIdempotent(pod.labels.value["app"]);
      }
      if "app.kubernetes.io/name" in pod.labels.value {
        TrimSpaceIdempotent(pod.labels.value["app.kubernetes.io/name"]);
      }
    }
    OwnerNameNotBlank(pod.owners);
  }

  predicate HasAll(existing: map<string, string>, desired: map<string, string>) {
    forall k :: k in desired ==> k in existing && existing[k] == desired[k]
  }

  lemma {:induction false} NoAnnotationOpsIff(
    existing: map<string, string>, desired: map<string, string>, keys: seq<string>)
    requires forall k :: k in keys ==> k in desired
    ensures AnnotationOpsFor(existing, desired, keys) == []
            <==> forall k :: k in keys ==> k in existing && existing[k] == desired[k]
  {
    if keys != [] {
      NoAnnotationOpsIff(existing, desired, keys[1..]);
      assert forall k :: k in keys <==> k == keys[0] || k in keys[1..];
    }
  }

  lemma NoAnnotationsLeftIff(existing: Option<map<string, string>>, desired: map<string, string>)
    requires desired != map[]
    ensures AnnotationOps(existing, desired) == [] <==> existing.Some? && HasAll(existing.value, desired)
  {
    hide LexLE, SortedBy, Sort;
    if existing.Some? {
      OrdersAreTotal();
      InOrderLists(STRING_ORDER, desired.Keys);
      NoAnnotationOpsIff(existing.value, desired, InOrder(STRING_ORDER, desired.Keys));
    }
  }

  /** A pod that has everything injection adds. */
  predicate FullyInjected(cfg: Config, pod: Pod) {
    && TrimSpace(pod.serviceAccountName) != ""
    && pod.annotations.Some? && HasAll(pod.annotations.value, DesiredAnnotations(cfg))
    && "mesh-ca" in pod.volumes
    && HasContainer(pod.initContainers, "iptables-init") && HasContainer(pod.containers, "sidecar")
  }

  /** Letters in lower case; the long s is one too. */
  function Lowered(s: string): string {
    seq(|s|, i requires 0 <= i < |s| =>
      if 'A' <= s[i] <= 'Z' then (s[i] as int + 32) as char else if s[i] == '\U{17F}' then 's' else s[i])
  }

  lemma FoldsMeans(s: string)
    ensures FoldsToFalse(s) <==> Lowered(s) == "false"
  {
    var lower := Lowered(s);
    if |s| == 5 {
      assert lower == [lower[0], lower[1], lower[2], lower[3], lower[4]];
      assert "false" == ['f', 'a', 'l', 's', 'e'];
    }
  }

  /** The annotation says no, in whatever case. */
  predicate SaysNo(pod: Pod) {
    && pod.annotations.Some? && "sidecar.mesh.io/inject" in pod.annotations.value
    && Lowered(TrimSpace(pod.annotations.value["sidecar.mesh.io/inject"])) == "false"
  }

  /**
   A pod is left alone when its namespace, that of the request if it names one, is ignored, when it says no, or when
   nothing is missing, for the first of these reasons; any other pod gets a patch that is not empty.
   */
  lemma DecisionMeans(cfg: Config, requested: string, pod: Pod)
    ensures var namespace := if TrimSpace(requested) != "" then TrimSpace(requested) else TrimSpace(pod.namespace);
            var decision := Decide(cfg, requested, pod);
            if namespace in cfg.ignoreNamespaces then decision == Skip("ignored namespace")
            else if SaysNo(pod) then decision == Skip("opt-out annotation")
            else if FullyInjected(cfg, pod) then decision == Skip("already injected")
            else decision.Mutate? && decision.patch != []
  {
    hide Patch, FullyInjected, TrimSpace, FoldsToFalse, Lowered;
    NothingLeftIff(cfg, pod);
    if pod.annotations.Some? && ANNOTATION_INJECT in pod.annotations.value {
      FoldsMeans(TrimSpace(pod.annotations.value[ANNOTATION_INJECT]));
    }
  }

  /** The patch is empty, and the pod skipped as already injected, exactly when nothing is missing. */
  lemma NothingLeftIff(cfg: Config, pod: Pod)
    ensures Patch(cfg, pod) == [] <==> FullyInjected(cfg, pod)
  {
    hide AnnotationOps, HasAll, DesiredAnnotations, TrimSpace, HasContainer, PortList, IptablesJson, VolumeJson,
      SidecarFor, ListOp, ServiceAccountName;
    DesiredNotEmpty(cfg);
    NoAnnotationsLeftIff(pod.annotations, DesiredAnnotations(cfg));
    EmptyConcat(AccountOps(pod), AnnotationOps(pod.annotations, DesiredAnnotations(cfg)), VolumeOps(pod),
                InitOps(cfg, pod), SidecarOps(cfg, pod));
  }

  lemma EmptyConcat(a: seq<Operation>, b: seq<Operation>, c: seq<Operation>, d: seq<Operation>, e: seq<Operation>)
    ensures a + b + c + d + e == [] <==> a == [] && b == [] && c == [] && d == [] && e == []
  {
    assert |a + b + c + d + e| == |a| + |b| + |c| + |d| + |e|;
  }

  lemma NothingToInject(cfg: Config, pod: Pod)
    ensures Patch(cfg, PodAfter(cfg, pod)) == []
  {
    hide TrimSpace, ServiceAccountName, DesiredAnnotations, ContainerPorts, HasContainer, Patch;
    NothingLeftIff(cfg, PodAfter(cfg, pod));
    AccountNotBlank(pod);
    SameLists(pod);
    NamePresent([Container(IPTABLES, [])], pod.initContainers, IPTABLES);
    NamePresent(pod.containers, [Container(SIDECAR, ContainerPorts(cfg))], SIDECAR);
  }

  lemma NamePresent(xs: seq<Container>, ys: seq<Container>, name: string)
    ensures HasContainer(xs + ys, name) <==> HasContainer(xs, name) || HasContainer(ys, name)
    ensures |xs| == 1 ==> (HasContainer(xs, name) <==> xs[0].name == name)
    ensures |ys| == 1 ==> (HasContainer(ys, name) <==> ys[0].name == name)
  {
    if i :| 0 <= i < |xs| && xs[i].name == name {
      assert (xs + ys)[i].name == name;
    }
    if i :| 0 <= i < |ys| && ys[i].name == name {
      assert (xs + ys)[|xs| + i].name == name;
    }
  }

  lemma OptOutSurvives(cfg: Config, pod: Pod)
    ensures OptedOut(PodAfter(cfg, pod)) == OptedOut(pod)
  {
    hide FoldsToFalse, TrimSpace, ServiceAccountName, HasContainer, ContainerPorts, Itoa;
    InjectIsNotDesired(cfg);
  }

  lemma InjectIsNotDesired(cfg: Config)
    ensures ANNOTATION_INJECT !in DesiredAnnotations(cfg)
  {
    hide Itoa;
    assert |ANNOTATION_INJECT| == 22 && |ANNOTATION_INJECTED| == 24 && |ANNOTATION_VERSION| == 23;
    assert ANNOTATION_INJECT[0] == 's' && PROMETHEUS_SCRAPE[0] == 'p' && PROMETHEUS_PORT[0] == 'p'
        && PROMETHEUS_PATH[0] == 'p';
  }

  /** Patching a document and asking again about the result finds the pod already injected. */
  lemma InjectionIsIdempotent(cfg: Config, requested: string, pod: Pod, doc: Json)
    requires Decode(doc) == Some(pod) && HasParents(doc) && Decide(cfg, requested, pod).Mutate?
    ensures var after := ApplyAll(doc, Decide(cfg, requested, pod).patch);
            && after.Some? && Decode(after.value).Some?
            && Decide(cfg, requested, Decode(after.value).value) == Skip("already injected")
  {
    hide Patch, ApplyAll, Decode, Injected, OptedOut, TrimSpace, DesiredAnnotations, ServiceAccountName, HasContainer,
      ContainerPorts;
    PatchGivesInjected(cfg, pod, doc);
    InjectedDecodes(cfg, pod, doc);
    NothingToInject(cfg, pod);
    OptOutSurvives(cfg, pod);
  }

  // ---- Conservation ----

  function FieldsOf(j: Json): map<string, Json> {
    if j.Obj? then j.fields else map[]
  }

  /** Two objects agree on every member outside the given names. */
  ghost predicate SameOutside(before: Json, after: Json, names: set<string>) {
    forall k :: k !in names ==>
      (k in FieldsOf(before) <==> k in FieldsOf(after))
      && (k in FieldsOf(before) && k in FieldsOf(after) ==> FieldsOf(before)[k] == FieldsOf(after)[k])
  }

  /** A list is as it was, or has gained one element at its end (or start). */
  predicate ExtendedBy(before: seq<Json>, after: seq<Json>, added: seq<Json>, atEnd: bool) {
    after == if atEnd then before + added else added + before
  }

  /** The annotations injection may touch. */
  function MarkNames(cfg: Config): set<string> {
    {"sidecar.mesh.io/injected", "sidecar.mesh.io/version"}
    + if cfg.monitoringEnabled then {"prometheus.io/scrape", "prometheus.io/port", "prometheus.io/path"} else {}
  }

  lemma MarksAreDesired(cfg: Config)
    ensures DesiredAnnotations(cfg).Keys == MarkNames(cfg)
  {
    hide Itoa;
  }

  /**
   Everything a document says survives injection: members it does not name stay as they were, the lists keep their
   elements in order, the init container comes first and the sidecar last when they were missing.
   */
  lemma InjectionConserves(cfg: Config, pod: Pod, doc: Json)
    requires Decode(doc) == Some(pod) && HasParents(doc)
    ensures var result := ApplyAll(doc, Patch(cfg, pod));
            && result.Some? && SameOutside(doc, result.value, {"metadata", "spec"})
            && var meta, meta' := Field(doc, "metadata"), Field(result.value, "metadata");
               var spec, spec' := Field(doc, "spec"), Field(result.value, "spec");
            && SameOutside(meta, meta', {"annotations"})
            && SameOutside(Field(meta, "annotations"), Field(meta', "annotations"), MarkNames(cfg))
            && SameOutside(spec, spec', {"serviceAccountName", "volumes", "initContainers", "containers"})
            && (TrimSpace(pod.serviceAccountName) != "" ==>
                Field(spec', "serviceAccountName") == Field(spec, "serviceAccountName"))
            && ExtendedBy(Items(Field(spec, "volumes")), Items(Field(spec', "volumes")),
                          if MESH_CA in pod.volumes then [] else [VolumeJson()], true)
            && ExtendedBy(Items(Field(spec, "initContainers")), Items(Field(spec', "initContainers")),
                          if HasContainer(pod.initContainers, IPTABLES) then []
                          else [IptablesJson(cfg, PortList(pod.containers))], false)
            && ExtendedBy(Items(Field(spec, "containers")), Items(Field(spec', "containers")),
                          if HasContainer(pod.containers, SIDECAR) then [] else [SidecarFor(cfg, pod)], true)
  {
    hide Patch, ApplyAll, SpecAfter, AnnotationsAfter, DesiredAnnotations, TrimSpace, HasContainer, PortList,
      VolumeJson, IptablesJson, SidecarFor, AsList, SameOutside, ServiceAccountName, AsStringMap;
    PatchGivesInjected(cfg, pod, doc);
    MarksAreDesired(cfg);
    var meta, spec := doc.fields["metadata"], doc.fields["spec"];
    var annotations := AnnotationsAfter(Field(meta, "annotations"), pod.annotations, DesiredAnnotations(cfg));
    var after := Injected(cfg, pod, doc);
    assert "metadata"[0] == 'm' && "spec"[0] == 's';
    assert Field(after, "metadata") == Obj(meta.fields["annotations" := annotations]);
    assert Field(after, "spec") == Obj(SpecAfter(cfg, pod, spec));
    UpdateConserves(doc, doc.fields["metadata" := Field(after, "metadata")]["spec" := Field(after, "spec")],
                    {"metadata", "spec"});
    UpdateConserves(meta, meta.fields["annotations" := annotations], {"annotations"});
    OtherAnnotationsKept(Field(meta, "annotations"), pod.annotations, DesiredAnnotations(cfg));
    SpecConserves(cfg, pod, spec);
  }

  lemma UpdateConserves(before: Json, after: map<string, Json>, names: set<string>)
    requires before.Obj?
    requires forall k :: k !in names ==> (k in before.fields <==> k in after)
    requires forall k :: k !in names && k in after && k in before.fields ==> after[k] == before.fields[k]
    ensures SameOutside(before, Obj(after), names)
  {
  }

  lemma OtherAnnotationsKept(j: Json, existing: Option<map<string, string>>, desired: map<string, string>)
    requires AsStringMap(j) == Some(existing)
    ensures SameOutside(j, AnnotationsAfter(j, existing, desired), desired.Keys)
  {
  }

  lemma SpecConserves(cfg: Config, pod: Pod, spec: Json)
    requires spec.Obj?
    ensures var spec' := Obj(SpecAfter(cfg, pod, spec));
            && SameOutside(spec, spec', {"serviceAccountName", "volumes", "initContainers", "containers"})
            && (TrimSpace(pod.serviceAccountName) != "" ==>
                Field(spec', "serviceAccountName") == Field(spec, "serviceAccountName"))
            && ExtendedBy(Items(Field(spec, "volumes")), Items(Field(spec', "volumes")),
                          if MESH_CA in pod.volumes then [] else [VolumeJson()], true)
            && ExtendedBy(Items(Field(spec, "initContainers")), Items(Field(spec', "initContainers")),
                          if HasContainer(pod.initContainers, IPTABLES) then []
                          else [IptablesJson(cfg, PortList(pod.containers))], false)
            && ExtendedBy(Items(Field(spec, "containers")), Items(Field(spec', "containers")),
                          if HasContainer(pod.containers, SIDECAR) then [] else [SidecarFor(cfg, pod)], true)
  {
    hide SpecAfter, TrimSpace, HasContainer, PortList, VolumeJson, IptablesJson, SidecarFor, ServiceAccountName;
    ListNamesDiffer();
    var names := {"serviceAccountName", "volumes", "initContainers", "containers"};
    var after := SpecAfter(cfg, pod, spec);
    forall k | k !in names ensures k in after <==> k in spec.fields ensures k in after ==> after[k] == spec.fields[k] {
      SpecMember(cfg, pod, spec, k);
    }
    UpdateConserves(spec, after, names);
    hide SameOutside;
    SpecMember(cfg, pod, spec, "serviceAccountName");
    SpecMember(cfg, pod, spec, "volumes");
    SpecMember(cfg, pod, spec, "initContainers");
    SpecMember(cfg, pod, spec, "containers");
  }

  ghost predicate UniqueNames(containers: seq<Container>) {
    forall i, j :: 0 <= i < j < |containers| ==> containers[i].name != containers[j].name
  }

  ghost predicate UniqueStrings(names: seq<string>) {
    forall i, j :: 0 <= i < j < |names| ==> names[i] != names[j]
  }

  /** Within each list, names that were unique stay unique. */
  lemma NamesStayUnique(cfg: Config, pod: Pod)
    requires UniqueNames(pod.containers) && UniqueNames(pod.initContainers) && UniqueStrings(pod.volumes)
    ensures var after := PodAfter(cfg, pod);
            UniqueNames(after.containers) && UniqueNames(after.initContainers) && UniqueStrings(after.volumes)
  {
  }

  /** No init container is named like a container, which the API server asks for. */
  predicate NamesApart(containers: seq<Container>, initContainers: seq<Container>) {
    forall i, j :: 0 <= i < |containers| && 0 <= j < |initContainers| ==> containers[i].name != initContainers[j].name
  }

  /**
   Across the two lists the webhook does not look. Names that were apart stay apart exactly when no init container is
   named like the sidecar and no container like the iptables one; otherwise the API server refuses the patched pod.
   */
  lemma NamesStayApartIff(cfg: Config, pod: Pod)
    requires NamesApart(pod.containers, pod.initContainers)
    ensures NamesApart(PodAfter(cfg, pod).containers, PodAfter(cfg, pod).initContainers)
            <==> !HasContainer(pod.initContainers, SIDECAR) && !HasContainer(pod.containers, IPTABLES)
  {
    hide DesiredAnnotations, TrimSpace, ServiceAccountName, ContainerPorts, HasContainer, NamesApart;
    var cs, inits := pod.containers, pod.initContainers;
    var c, i := Container(SIDECAR, ContainerPorts(cfg)), Container(IPTABLES, []);
    SameLists(pod);
    assert SIDECAR[0] == 's' && IPTABLES[0] == 'i';
    ContainerAdded(cs, c, inits);
    ContainerAdded(cs, c, [i] + inits);
    InitAdded(cs, i, inits);
    NamePresent([i], inits, SIDECAR);
    Shared(cs, inits, SIDECAR);
    Shared(cs, inits, IPTABLES);
  }

  lemma ContainerAdded(cs: seq<Container>, c: Container, inits: seq<Container>)
    ensures NamesApart(cs + [c], inits) <==> NamesApart(cs, inits) && !HasContainer(inits, c.name)
  {
    var longer := cs + [c];
    assert longer[|cs|] == c && forall k :: 0 <= k < |cs| ==> longer[k] == cs[k];
  }

  lemma InitAdded(cs: seq<Container>, i: Container, inits: seq<Container>)
    ensures NamesApart(cs, [i] + inits) <==> NamesApart(cs, inits) && !HasContainer(cs, i.name)
  {
    var longer := [i] + inits;
    assert longer[0] == i && forall k :: 0 <= k < |inits| ==> longer[k + 1] == inits[k];
    assert forall k :: 0 < k < |longer| ==> longer[k] == inits[k - 1];
  }

  lemma Shared(cs: seq<Container>, inits: seq<Container>, name: string)
    requires NamesApart(cs, inits)
    ensures !(HasContainer(cs, name) && HasContainer(inits, name))
  {
  }

  /** A pod that runs its own sidecar as an init container ends up with two containers of that name. */
  lemma NativeSidecarExample(cfg: Config)
    ensures var pod := Pod("", "", None, None, [], "web", [], [Container(SIDECAR, [])], [Container("web", [80])]);
            && NamesApart(pod.containers, pod.initContainers)
            && !NamesApart(PodAfter(cfg, pod).containers, PodAfter(cfg, pod).initContainers)
  {
    hide PodAfter;
    var pod := Pod("", "", None, None, [], "web", [], [Container(SIDECAR, [])], [Container("web", [80])]);
    assert |"web"| == 3 && |SIDECAR| == 7;
    assert pod.initContainers[0].name == SIDECAR;
    NamesStayApartIff(cfg, pod);
  }

  /** The sidecar's own ports are not inbound ports, so a second look at the pod lists the same ports. */
  lemma PortsSurviveInjection(cfg: Config, pod: Pod)
    ensures PortList(PodAfter(cfg, pod).containers) == PortList(pod.containers)
  {
    hide DesiredAnnotations, TrimSpace, ServiceAccountName, ContainerPorts, Sort, Join, PortStrings, HasContainer;
    var after := PodAfter(cfg, pod).containers;
    assert forall c :: c in after && c.name != SIDECAR <==> c in pod.containers && c.name != SIDECAR;
    assert InboundPorts(after) == InboundPorts(pod.containers);
  }
}
