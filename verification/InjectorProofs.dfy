/** What the webhook's patch does to a pod document: it applies, changes only what it names, and is idempotent. */
module InjectorProofs {
  import opened Options
  import opened GoStrings
  import opened JsonPatch
  import opened Pods
  import opened Sorting
  import opened Injector

  predicate HasTop(doc: Json, top: string) {
    doc.Obj? && top in doc.fields && doc.fields[top].Obj?
  }

  /** Every operation of a patch has its parent in such a document. */
  predicate HasParents(doc: Json) {
    HasTop(doc, "metadata") && HasTop(doc, "spec")
  }

  function WithMember(doc: Json, top: string, field: string, value: Json): Json
    requires HasTop(doc, top)
  {
    Obj(doc.fields[top := Obj(doc.fields[top].fields[field := value])])
  }

  function Items(j: Json): seq<Json> {
    if j.Arr? then j.items else []
  }

  function AnnotationChanges(existing: map<string, string>, desired: map<string, string>, key: string): bool
    requires key in desired
  {
    key !in existing || existing[key] != desired[key]
  }

  /** The annotations afterwards: the desired ones set, all others as they were. */
  function AnnotationsAfter(j: Json, existing: Option<map<string, string>>, desired: map<string, string>): Json {
    if existing.None? || !j.Obj? then StringsJson(desired)
    else
      Obj(map k | k in j.fields.Keys + desired.Keys ::
            if k in desired && AnnotationChanges(existing.value, desired, k) then Str(desired[k])
            else if k in j.fields then j.fields[k] else Null)
  }

  function WithField(fields: map<string, Json>, name: string, change: bool, value: Json): map<string, Json> {
    if change then fields[name := value] else fields
  }

  /** A document whose spec is the given one. */
  function WithSpec(doc: Json, spec: map<string, Json>): Json
    requires doc.Obj?
  {
    Obj(doc.fields["spec" := Obj(spec)])
  }

  /** The members of the spec afterwards. */
  ghost function SpecAfter(cfg: Config, pod: Pod, spec: Json): map<string, Json>
    requires spec.Obj?
  {
    var s1 := WithField(spec.fields, "serviceAccountName",
                        TrimSpace(pod.serviceAccountName) == "", Str(ServiceAccountName(pod)));
    ListsAfter(cfg, pod, spec, s1)
  }

  /** The volume and the sidecar go last, the init container first. */
  ghost function ListsAfter(cfg: Config, pod: Pod, spec: Json, s1: map<string, Json>): map<string, Json> {
    var s2 := WithField(s1, "volumes", MESH_CA !in pod.volumes, Arr(Items(Field(spec, "volumes")) + [VolumeJson()]));
    var s3 := WithField(s2, "initContainers", !HasContainer(pod.initContainers, IPTABLES),
                        Arr([IptablesJson(cfg, PortList(pod.containers))] + Items(Field(spec, "initContainers"))));
    WithField(s3, "containers", !HasContainer(pod.containers, SIDECAR),
              Arr(Items(Field(spec, "containers")) + [SidecarFor(cfg, pod)]))
  }

  /** The document the patch is meant to produce. */
  ghost function Injected(cfg: Config, pod: Pod, doc: Json): Json
    requires HasParents(doc)
  {
    var annotations := AnnotationsAfter(
      Field(doc.fields["metadata"], "annotations"), pod.annotations, DesiredAnnotations(cfg));
    WithSpec(WithMember(doc, "metadata", "annotations", annotations), SpecAfter(cfg, pod, doc.fields["spec"]))
  }

  // ---- Applying single operations ----

  lemma AddToTop(doc: Json, top: string, field: string, value: Json)
    requires IsStruct(doc)
    ensures AddAt(doc, [top, field], value) ==
            if HasTop(doc, top) then Some(WithMember(doc, top, field, value))
            else if Field(doc, top).Null? then None
            else AddAt(doc, [top, field], value)
  {
  }

  lemma ApplyAddToTop(doc: Json, top: string, field: string, value: Json)
    requires IsStruct(doc) && '/' !in top && '~' !in top && '/' !in field && '~' !in field
    ensures var r := Apply(doc, Add("/" + top + "/" + field, value));
            && (HasTop(doc, top) ==> r == Some(WithMember(doc, top, field, value)))
            && (Field(doc, top).Null? ==> r == None)
  {
    TokensOfTwo(top, field);
    AddToTop(doc, top, field, value);
  }

  lemma ApplyListOp(doc: Json, field: string, position: string, element: Json)
    requires HasTop(doc, "spec") && '/' !in field && '~' !in field && position in {"-", "0"}
    requires var list := Field(doc.fields["spec"], field); list.Null? || list.Arr?
    ensures var list := Field(doc.fields["spec"], field);
            Apply(doc, ListOp(field, Items(list) == [], position, element))
            == Some(WithMember(doc, "spec", field,
                    Arr(if position == "-" then Items(list) + [element] else [element] + Items(list))))
  {
    var list := Field(doc.fields["spec"], field);
    if Items(list) == [] {
      ApplyAddToTop(doc, "spec", field, Arr([element]));
      assert Items(list) + [element] == [element] && [element] + Items(list) == [element];
    } else {
      TokensOfThree("spec", field, position);
      assert SpecPath(field) + "/" + position == "/" + "spec" + "/" + field + "/" + position;
      AddToList(doc, field, position, element);
    }
  }

  lemma TokensOfThree(a: string, b: string, c: string)
    requires '/' !in a && '~' !in a && '/' !in b && '~' !in b && '/' !in c && '~' !in c
    ensures Tokens("/" + a + "/" + b + "/" + c) == Some([a, b, c])
  {
    EscapePlain(c);
    TokensOfMember(a, b, c);
  }

  lemma {:induction false} EscapePlain(key: string)
    requires '/' !in key && '~' !in key
    ensures Escape(key) == key
  {
    EscapeIsEach(key);
    EscapeEachPlain(key);
  }

  lemma {:induction false} EscapeEachPlain(key: string)
    requires '/' !in key && '~' !in key
    ensures EscapeEach(key) == key
  {
    if key != [] {
      EscapeEachPlain(key[1..]);
    }
  }

  lemma AddToList(doc: Json, field: string, position: string, element: Json)
    requires HasTop(doc, "spec") && position in {"-", "0"}
    requires Field(doc.fields["spec"], field).Arr?
    ensures var items := Field(doc.fields["spec"], field).items;
            AddAt(doc, ["spec", field, position], element)
            == Some(WithMember(doc, "spec", field,
                    Arr(if position == "-" then items + [element] else [element] + items)))
  {
    var spec := doc.fields["spec"];
    var list := spec.fields[field];
    assert ["spec", field, position][1..] == [field, position] && [field, position][1..] == [position];
    ZeroIsAnIndex();
    assert list.items[..0] + [element] + list.items[0..] == [element] + list.items;
    assert AddAt(list, [position], element)
        == Some(Arr(if position == "-" then list.items + [element] else [element] + list.items));
    assert AddAt(spec, [field, position], element)
        == Some(Obj(spec.fields[field := AddAt(list, [position], element).value]));
  }

  lemma ZeroIsAnIndex()
    ensures ArrayIndex("0") == Some(0)
  {
  }

  // ---- Annotations ----

  /** Setting the changed annotations one key after the other. */
  function MergeAll(
    jm: map<string, Json>, existing: map<string, string>, desired: map<string, string>, keys: seq<string>)
    : map<string, Json>
    requires forall k :: k in keys ==> k in desired
    decreases |keys|
  {
    if keys == [] then jm
    else
      var k := keys[0];
      MergeAll(WithField(jm, k, AnnotationChanges(existing, desired, k), Str(desired[k])), existing, desired, keys[1..])
  }

  ghost predicate Distinct(keys: seq<string>) {
    forall i, j :: 0 <= i < j < |keys| ==> keys[i] != keys[j]
  }

  predicate HasAnnotations(doc: Json, jm: map<string, Json>) {
    HasTop(doc, "metadata") && Field(doc.fields["metadata"], "annotations") == Obj(jm)
  }

  lemma SetAnnotation(doc: Json, jm: map<string, Json>, existing: map<string, string>, key: string, value: string)
    requires HasAnnotations(doc, jm) && (key in existing ==> key in jm)
    ensures ApplyAll(doc, AnnotationOp(existing, key, value))
            == Some(WithMember(doc, "metadata", "annotations",
                    Obj(WithField(jm, key, key !in existing || existing[key] != value, Str(value)))))
  {
    hide Tokens, Escape, AsString;
    var meta := doc.fields["metadata"];
    var path := ["metadata", "annotations", key];
    TokensOfMember("metadata", "annotations", key);
    assert path[1..] == ["annotations", key] && path[1..][1..] == [key] && [key][1..] == [];
    var changed := Obj(jm[key := Str(value)]);
    assert AddAt(Obj(jm), [key], Str(value)) == Some(changed);
    assert AddAt(meta, ["annotations", key], Str(value)) == Some(Obj(meta.fields["annotations" := changed]));
    if key in jm {
      assert ReplaceAt(jm[key], [], Str(value)) == Some(Str(value));
      assert ReplaceAt(Obj(jm), [key], Str(value)) == Some(changed);
      assert ReplaceAt(meta, ["annotations", key], Str(value)) == Some(Obj(meta.fields["annotations" := changed]));
    }
    SameMember(doc, jm);
    OneOperation(doc, AnnotationOp(existing, key, value));
  }

  lemma SameMember(doc: Json, jm: map<string, Json>)
    requires HasAnnotations(doc, jm)
    ensures WithMember(doc, "metadata", "annotations", Obj(jm)) == doc
  {
    var meta := doc.fields["metadata"];
    assert meta.fields["annotations" := Obj(jm)] == meta.fields;
    assert doc.fields["metadata" := meta] == doc.fields;
  }

  lemma OneOperation(doc: Json, ops: seq<Operation>)
    requires |ops| <= 1
    ensures ApplyAll(doc, ops) == if ops == [] then Some(doc) else Apply(doc, ops[0])
  {
  }

  lemma {:induction false} SetAnnotations(
    doc: Json, jm: map<string, Json>, existing: map<string, string>, desired: map<string, string>, keys: seq<string>)
    requires HasAnnotations(doc, jm) && Distinct(keys)
    requires forall k :: k in keys ==> k in desired && (k in existing ==> k in jm)
    ensures ApplyAll(doc, AnnotationOpsFor(existing, desired, keys))
            == Some(WithMember(doc, "metadata", "annotations", Obj(MergeAll(jm, existing, desired, keys))))
    decreases |keys|
  {
    if keys == [] {
      SameMember(doc, jm);
    } else {
      var k := keys[0];
      var jm' := WithField(jm, k, AnnotationChanges(existing, desired, k), Str(desired[k]));
      var next := WithMember(doc, "metadata", "annotations", Obj(jm'));
      SetAnnotation(doc, jm, existing, k, desired[k]);
      assert forall i :: 0 < i < |keys| ==> keys[i] == keys[1..][i - 1];
      SetAnnotations(next, jm', existing, desired, keys[1..]);
      ApplyAllConcat(doc, AnnotationOp(existing, k, desired[k]), AnnotationOpsFor(existing, desired, keys[1..]));
      Overwrite(doc, jm', MergeAll(jm', existing, desired, keys[1..]));
    }
  }

  lemma Overwrite(doc: Json, jm: map<string, Json>, jm': map<string, Json>)
    requires HasTop(doc, "metadata")
    ensures WithMember(WithMember(doc, "metadata", "annotations", Obj(jm)), "metadata", "annotations", Obj(jm'))
            == WithMember(doc, "metadata", "annotations", Obj(jm'))
  {
    var meta := doc.fields["metadata"];
    assert meta.fields["annotations" := Obj(jm)]["annotations" := Obj(jm')] == meta.fields["annotations" := Obj(jm')];
  }

  lemma {:induction false} MergeAllAt(
    jm: map<string, Json>, existing: map<string, string>, desired: map<string, string>, keys: seq<string>, key: string)
    requires Distinct(keys) && forall k :: k in keys ==> k in desired
    ensures var merged := MergeAll(jm, existing, desired, keys);
            if key in keys && AnnotationChanges(existing, desired, key)
            then key in merged && merged[key] == Str(desired[key])
            else (key in merged <==> key in jm) && (key in jm ==> merged[key] == jm[key])
    decreases |keys|
  {
    if keys != [] {
      var k := keys[0];
      var jm' := WithField(jm, k, AnnotationChanges(existing, desired, k), Str(desired[k]));
      assert key in keys <==> key == k || key in keys[1..];
      MergeAllAt(jm', existing, desired, keys[1..], key);
    }
  }

  /** The annotation operations produce the annotations they are meant to. */
  lemma AnnotationsApply(cfg: Config, doc: Json, pod: Pod)
    requires HasTop(doc, "metadata")
    requires AsStringMap(Field(doc.fields["metadata"], "annotations")) == Some(pod.annotations)
    ensures var j := Field(doc.fields["metadata"], "annotations");
            ApplyAll(doc, AnnotationOps(pod.annotations, DesiredAnnotations(cfg)))
            == Some(WithMember(doc, "metadata", "annotations",
                    AnnotationsAfter(j, pod.annotations, DesiredAnnotations(cfg))))
  {
    hide AnnotationOps;
    var desired := DesiredAnnotations(cfg);
    assert ANNOTATION_INJECTED in desired;
    if pod.annotations.None? {
      NewAnnotations(doc, desired);
    } else {
      ExistingAnnotations(doc, pod.annotations.value, desired);
    }
  }

  lemma NewAnnotations(doc: Json, desired: map<string, string>)
    requires HasTop(doc, "metadata") && desired != map[]
    ensures ApplyAll(doc, AnnotationOps(None, desired))
            == Some(WithMember(doc, "metadata", "annotations", StringsJson(desired)))
  {
    ApplyAddToTop(doc, "metadata", "annotations", StringsJson(desired));
    OneOperation(doc, AnnotationOps(None, desired));
  }

  lemma ExistingAnnotations(doc: Json, existing: map<string, string>, desired: map<string, string>)
    requires HasTop(doc, "metadata") && desired != map[]
    requires AsStringMap(Field(doc.fields["metadata"], "annotations")) == Some(Some(existing))
    ensures ApplyAll(doc, AnnotationOps(Some(existing), desired))
            == Some(WithMember(doc, "metadata", "annotations",
                    AnnotationsAfter(Field(doc.fields["metadata"], "annotations"), Some(existing), desired)))
  {
    hide LexLE, Escape, MergeAll, AnnotationOpsFor, Apply, AnnotationsAfter, InOrder;
    var j, keys := Field(doc.fields["metadata"], "annotations"), InOrder(STRING_ORDER, desired.Keys);
    OrdersAreTotal();
    InOrderLists(STRING_ORDER, desired.Keys);
    SetAnnotations(doc, j.fields, existing, desired, keys);
    MergedIsAnnotationsAfter(j, existing, desired, keys, MergeAll(j.fields, existing, desired, keys));
  }

  lemma MergedIsAnnotationsAfter(
    j: Json, existing: map<string, string>, desired: map<string, string>, keys: seq<string>, merged: map<string, Json>)
    requires j.Obj? && Distinct(keys) && (forall k :: k in keys <==> k in desired)
    requires existing.Keys == j.fields.Keys
    requires merged == MergeAll(j.fields, existing, desired, keys)
    ensures Obj(merged) == AnnotationsAfter(j, Some(existing), desired)
  {
    var after := AnnotationsAfter(j, Some(existing), desired).fields;
    forall k ensures (k in merged <==> k in after) && (k in merged ==> merged[k] == after[k]) {
      MergeAllAt(j.fields, existing, desired, keys, k);
    }
    assert merged.Keys == after.Keys;
  }

  // ---- The whole patch ----

  lemma SpecStep(doc: Json, spec: map<string, Json>, field: string, value: Json)
    requires doc.Obj?
    ensures WithMember(WithSpec(doc, spec), "spec", field, value) == WithSpec(doc, spec[field := value])
  {
  }

  lemma AccountApplies(doc: Json, spec: map<string, Json>, pod: Pod)
    requires doc.Obj?
    ensures ApplyAll(WithSpec(doc, spec), AccountOps(pod))
            == Some(WithSpec(doc, WithField(spec, "serviceAccountName",
                    TrimSpace(pod.serviceAccountName) == "", Str(ServiceAccountName(pod)))))
  {
    hide TrimSpace, ServiceAccountName, Tokens;
    ApplyAddToTop(WithSpec(doc, spec), "spec", "serviceAccountName", Str(ServiceAccountName(pod)));
    SpecStep(doc, spec, "serviceAccountName", Str(ServiceAccountName(pod)));
    OneOperation(WithSpec(doc, spec), AccountOps(pod));
  }

  /** One list of the spec gains one element, unless it already has it. */
  lemma ListApplies(
    doc: Json, spec: map<string, Json>, field: string, present: bool, isEmpty: bool, position: string, element: Json)
    requires doc.Obj? && '/' !in field && '~' !in field && position in {"-", "0"}
    requires var list := Field(Obj(spec), field); (list.Null? || list.Arr?) && (isEmpty <==> Items(list) == [])
    ensures var items := Items(Field(Obj(spec), field));
            ApplyAll(WithSpec(doc, spec), if present then [] else [ListOp(field, isEmpty, position, element)])
            == Some(WithSpec(doc, WithField(spec, field, !present,
                    Arr(if position == "-" then items + [element] else [element] + items))))
  {
    hide ListOp;
    if !present {
      var items := Items(Field(Obj(spec), field));
      ApplyListOp(WithSpec(doc, spec), field, position, element);
      SpecStep(doc, spec, field, Arr(if position == "-" then items + [element] else [element] + items));
      OneOperation(WithSpec(doc, spec), [ListOp(field, isEmpty, position, element)]);
    }
  }

  lemma {:induction false} AsListShape<T>(j: Json, element: Json -> Option<T>)
    requires AsList(j, element).Some?
    ensures j.Null? || j.Arr?
    ensures |AsList(j, element).value| == |Items(j)|
  {
    if j.Arr? {
      DecodeAllLength(j.items, element);
    }
  }

  lemma FieldOfOther(fields: map<string, Json>, f: string, change: bool, value: Json, g: string)
    requires f != g
    ensures Field(Obj(WithField(fields, f, change, value)), g) == Field(Obj(fields), g)
  {
  }

  lemma ListNamesDiffer()
    ensures "volumes" != "initContainers" && "volumes" != "containers" && "initContainers" != "containers"
    ensures "serviceAccountName" !in {"volumes", "initContainers", "containers"}
  {
    assert "volumes"[0] == 'v' && "initContainers"[0] == 'i' && "containers"[0] == 'c';
    assert "serviceAccountName"[0] == 's';
  }

  lemma ApplyInTurn(d0: Json, a: seq<Operation>, d1: Json, b: seq<Operation>, d2: Json, c: seq<Operation>)
    requires ApplyAll(d0, a) == Some(d1) && ApplyAll(d1, b) == Some(d2)
    ensures ApplyAll(d0, a + b + c) == ApplyAll(d2, c)
  {
    ApplyAllConcat(d0, a, b);
    ApplyAllConcat(d0, a + b, c);
  }

  lemma VolumesApply(pod: Pod, doc: Json, s: map<string, Json>)
    requires doc.Obj? && AsList(Field(Obj(s), "volumes"), AsVolume) == Some(pod.volumes)
    ensures ApplyAll(WithSpec(doc, s), VolumeOps(pod))
            == Some(WithSpec(doc, WithField(s, "volumes", MESH_CA !in pod.volumes,
                    Arr(Items(Field(Obj(s), "volumes")) + [VolumeJson()]))))
  {
    hide VolumeJson, AsVolume, ListOp, WithField, ApplyAll, AsList;
    AsListShape(Field(Obj(s), "volumes"), AsVolume);
    ListApplies(doc, s, "volumes", MESH_CA in pod.volumes, pod.volumes == [], "-", VolumeJson());
  }

  lemma InitApplies(cfg: Config, pod: Pod, doc: Json, s: map<string, Json>)
    requires doc.Obj? && AsList(Field(Obj(s), "initContainers"), AsContainer) == Some(pod.initContainers)
    ensures ApplyAll(WithSpec(doc, s), InitOps(cfg, pod))
            == Some(WithSpec(doc, WithField(s, "initContainers", !HasContainer(pod.initContainers, IPTABLES),
                    Arr([IptablesJson(cfg, PortList(pod.containers))] + Items(Field(Obj(s), "initContainers"))))))
  {
    hide IptablesJson, PortList, AsContainer, ListOp, WithField, ApplyAll, AsList, HasContainer;
    AsListShape(Field(Obj(s), "initContainers"), AsContainer);
    ListApplies(doc, s, "initContainers", HasContainer(pod.initContainers, IPTABLES), pod.initContainers == [], "0",
                IptablesJson(cfg, PortList(pod.containers)));
  }

  lemma SidecarApplies(cfg: Config, pod: Pod, doc: Json, s: map<string, Json>)
    requires doc.Obj? && AsList(Field(Obj(s), "containers"), AsContainer) == Some(pod.containers)
    ensures ApplyAll(WithSpec(doc, s), SidecarOps(cfg, pod))
            == Some(WithSpec(doc, WithField(s, "containers", !HasContainer(pod.containers, SIDECAR),
                    Arr(Items(Field(Obj(s), "containers")) + [SidecarFor(cfg, pod)]))))
  {
    hide SidecarFor, AsContainer, ListOp, WithField, ApplyAll, AsList, HasContainer;
    AsListShape(Field(Obj(s), "containers"), AsContainer);
    ListApplies(doc, s, "containers", HasContainer(pod.containers, SIDECAR), pod.containers == [], "-",
                SidecarFor(cfg, pod));
  }

  lemma ListsApply(cfg: Config, pod: Pod, doc: Json, spec: Json, s1: map<string, Json>)
    requires doc.Obj? && spec.Obj?
    requires forall f :: f in {"volumes", "initContainers", "containers"} ==> Field(Obj(s1), f) == Field(spec, f)
    requires AsList(Field(spec, "volumes"), AsVolume) == Some(pod.volumes)
    requires AsList(Field(spec, "initContainers"), AsContainer) == Some(pod.initContainers)
    requires AsList(Field(spec, "containers"), AsContainer) == Some(pod.containers)
    ensures ApplyAll(WithSpec(doc, s1), VolumeOps(pod) + InitOps(cfg, pod) + SidecarOps(cfg, pod))
            == Some(WithSpec(doc, ListsAfter(cfg, pod, spec, s1)))
  {
    hide VolumeJson, IptablesJson, SidecarFor, HasContainer, PortList, AsContainer, AsVolume, AsList,
      Field, WithField, WithSpec, ApplyAll, VolumeOps, InitOps, SidecarOps, Items;
    var hasV, hasI := MESH_CA in pod.volumes, HasContainer(pod.initContainers, IPTABLES);
    var vs := Arr(Items(Field(spec, "volumes")) + [VolumeJson()]);
    var inits := Arr([IptablesJson(cfg, PortList(pod.containers))] + Items(Field(spec, "initContainers")));
    var s2 := WithField(s1, "volumes", !hasV, vs);
    var s3 := WithField(s2, "initContainers", !hasI, inits);
    ListNamesDiffer();
    FieldOfOther(s1, "volumes", !hasV, vs, "initContainers");
    FieldOfOther(s1, "volumes", !hasV, vs, "containers");
    FieldOfOther(s2, "initContainers", !hasI, inits, "containers");
    VolumesApply(pod, doc, s1);
    InitApplies(cfg, pod, doc, s2);
    SidecarApplies(cfg, pod, doc, s3);
    ApplyInTurn(WithSpec(doc, s1), VolumeOps(pod), WithSpec(doc, s2), InitOps(cfg, pod),
                WithSpec(doc, s3), SidecarOps(cfg, pod));
  }

  /** Applied to the document the pod was decoded from, the patch gives the intended document. */
  lemma PatchGivesInjected(cfg: Config, pod: Pod, doc: Json)
    requires Decode(doc) == Some(pod) && HasParents(doc)
    ensures ApplyAll(doc, Patch(cfg, pod)) == Some(Injected(cfg, pod, doc))
  {
    hide ListsAfter, AnnotationOps, VolumeOps, InitOps, SidecarOps, AccountOps, ServiceAccountName, TrimSpace,
      AnnotationsAfter, DesiredAnnotations, ApplyAll;
    var spec, meta := doc.fields["spec"], doc.fields["metadata"];
    var s1 := WithField(spec.fields, "serviceAccountName",
                        TrimSpace(pod.serviceAccountName) == "", Str(ServiceAccountName(pod)));
    var annotations := AnnotationsAfter(Field(meta, "annotations"), pod.annotations, DesiredAnnotations(cfg));
    var d1, annotated := WithSpec(doc, s1), WithMember(doc, "metadata", "annotations", annotations);
    SameSpec(doc);
    AccountApplies(doc, spec.fields, pod);
    SwapMembers(doc, annotations, s1);
    AnnotationsApply(cfg, d1, pod);
    ListNamesDiffer();
    ListsApply(cfg, pod, annotated, spec, s1);
    var lists := VolumeOps(pod) + InitOps(cfg, pod) + SidecarOps(cfg, pod);
    var setAnnotations := AnnotationOps(pod.annotations, DesiredAnnotations(cfg));
    ApplyInTurn(doc, AccountOps(pod), d1, setAnnotations, WithSpec(annotated, s1), lists);
    assert Patch(cfg, pod) == AccountOps(pod) + setAnnotations + lists;
  }

  lemma SameSpec(doc: Json)
    requires HasTop(doc, "spec")
    ensures WithSpec(doc, doc.fields["spec"].fields) == doc
  {
  }

  lemma SwapMembers(doc: Json, annotations: Json, spec: map<string, Json>)
    requires HasParents(doc)
    ensures HasTop(WithSpec(doc, spec), "metadata")
    ensures WithSpec(doc, spec).fields["metadata"] == doc.fields["metadata"]
    ensures WithMember(WithSpec(doc, spec), "metadata", "annotations", annotations)
            == WithSpec(WithMember(doc, "metadata", "annotations", annotations), spec)
  {
    assert "metadata"[0] == 'm' && "spec"[0] == 's';
    var meta := Obj(doc.fields["metadata"].fields["annotations" := annotations]);
    assert doc.fields["spec" := Obj(spec)]["metadata" := meta] == doc.fields["metadata" := meta]["spec" := Obj(spec)];
  }

  lemma ApplyAllStops(doc: Json, xs: seq<Operation>, ys: seq<Operation>)
    requires ApplyAll(doc, xs).None?
    ensures ApplyAll(doc, xs + ys).None?
  {
    ApplyAllConcat(doc, xs, ys);
  }

  lemma NoSpecFails(cfg: Config, pod: Pod, doc: Json, rest: seq<Operation>)
    requires IsStruct(doc) && Field(doc, "spec").Null? && pod.serviceAccountName == ""
    ensures ApplyAll(doc, AccountOps(pod) + rest).None?
  {
    hide ServiceAccountName, Tokens, ApplyAll;
    BlankIsBlank();
    ApplyAddToTop(doc, "spec", "serviceAccountName", Str(ServiceAccountName(pod)));
    OneOperation(doc, AccountOps(pod));
    ApplyAllStops(doc, AccountOps(pod), rest);
  }

  lemma NoMetadataFails(cfg: Config, pod: Pod, doc: Json, rest: seq<Operation>)
    requires HasTop(doc, "spec") && Field(doc, "metadata").Null?
    ensures ApplyAll(doc, AccountOps(pod) + (AnnotationOps(None, DesiredAnnotations(cfg)) + rest)).None?
  {
    hide AccountOps, AnnotationOps, TrimSpace, ServiceAccountName, DesiredAnnotations, ApplyAll;
    var desired := DesiredAnnotations(cfg);
    SameSpec(doc);
    AccountApplies(doc, doc.fields["spec"].fields, pod);
    var d1 := ApplyAll(doc, AccountOps(pod)).value;
    assert "metadata"[0] == 'm' && "spec"[0] == 's';
    DesiredNotEmpty(cfg);
    NewAnnotationsFail(d1, desired);
    ApplyAllStops(d1, AnnotationOps(None, desired), rest);
    ApplyAllConcat(doc, AccountOps(pod), AnnotationOps(None, desired) + rest);
  }

  /** Without one of the two parents the patch fails at the first operation below it. */
  lemma NeedsParents(cfg: Config, pod: Pod, doc: Json)
    requires Decode(doc) == Some(pod) && !HasParents(doc)
    ensures ApplyAll(doc, Patch(cfg, pod)).None?
  {
    hide AccountOps, AnnotationOps, VolumeOps, InitOps, SidecarOps, DesiredAnnotations, AsList, ApplyAll;
    var annotationOps := AnnotationOps(pod.annotations, DesiredAnnotations(cfg));
    var last := VolumeOps(pod) + InitOps(cfg, pod) + SidecarOps(cfg, pod);
    assert Patch(cfg, pod) == AccountOps(pod) + (annotationOps + last);
    if !HasTop(doc, "spec") {
      assert Field(doc, "spec").Null?;
      NoSpecFails(cfg, pod, doc, annotationOps + last);
    } else {
      assert Field(doc, "metadata").Null?;
      NoMetadataFails(cfg, pod, doc, last);
    }
  }

  lemma BlankIsBlank()
    ensures TrimSpace("") == ""
  {
  }

  lemma DesiredNotEmpty(cfg: Config)
    ensures DesiredAnnotations(cfg) != map[]
  {
    assert ANNOTATION_INJECTED in DesiredAnnotations(cfg);
  }

  lemma NewAnnotationsFail(doc: Json, desired: map<string, string>)
    requires IsStruct(doc) && Field(doc, "metadata").Null? && desired != map[]
    ensures ApplyAll(doc, AnnotationOps(None, desired)).None?
  {
    ApplyAddToTop(doc, "metadata", "annotations", StringsJson(desired));
    OneOperation(doc, AnnotationOps(None, desired));
  }

  /**
   A patch applies exactly to the documents whose metadata and spec are there; the decoder accepts others too,
   but the API server does not send them.
   */
  lemma PatchAppliesIff(cfg: Config, requested: string, pod: Pod, doc: Json)
    requires Decode(doc) == Some(pod) && Decide(cfg, requested, pod).Mutate?
    ensures ApplyAll(doc, Decide(cfg, requested, pod).patch).Some? <==> HasParents(doc)
  {
    hide Patch, ApplyAll, Decode, Injected;
    if HasParents(doc) {
      PatchGivesInjected(cfg, pod, doc);
    } else {
      NeedsParents(cfg, pod, doc);
    }
  }

  const NO_MEMBERS := Obj(map[])

  lemma EmptyPodDecodes(doc: Json)
    requires doc.Obj? && doc.fields.Keys <= {"metadata", "spec"}
    requires forall k :: k in doc.fields ==> doc.fields[k] == NO_MEMBERS
    ensures Decode(doc) == Some(Pod("", "", None, None, [], "", [], [], []))
  {
  }

  /** A pod without metadata decodes, is given a patch, and the patch fails. */
  lemma NoMetadataExample(cfg: Config)
    requires "" !in cfg.ignoreNamespaces
    ensures var doc := Obj(map["spec" := NO_MEMBERS]);
            && Decode(doc).Some? && Decide(cfg, "", Decode(doc).value).Mutate?
            && ApplyAll(doc, Decide(cfg, "", Decode(doc).value).patch).None?
  {
    hide Decode, ApplyAll, ServiceAccountName, AnnotationOps, VolumeOps, InitOps, SidecarOps;
    var doc := Obj(map["spec" := NO_MEMBERS]);
    EmptyPodDecodes(doc);
    BlankIsBlank();
    ListNamesDiffer();
    PatchAppliesIff(cfg, "", Decode(doc).value, doc);
  }

  /** With both parents there even an empty pod can be injected. */
  lemma EmptyPodExample(cfg: Config)
    requires "" !in cfg.ignoreNamespaces
    ensures var doc := Obj(map["metadata" := NO_MEMBERS, "spec" := NO_MEMBERS]);
            && Decode(doc).Some? && Decide(cfg, "", Decode(doc).value).Mutate?
            && ApplyAll(doc, Decide(cfg, "", Decode(doc).value).patch).Some?
  {
    hide Decode, ApplyAll, ServiceAccountName, AnnotationOps, VolumeOps, InitOps, SidecarOps;
    var doc := Obj(map["metadata" := NO_MEMBERS, "spec" := NO_MEMBERS]);
    EmptyPodDecodes(doc);
    BlankIsBlank();
    PatchAppliesIff(cfg, "", Decode(doc).value, doc);
  }
}
