/** What the webhook reads of a pod document: the fields BuildPatch looks at, decoded as encoding/json does. */
module Pods {
  import opened Options
  import opened JsonPatch

  datatype Container = Container(name: string, ports: seq<int>)

  /** controller is true only when the reference says so explicitly. */
  datatype Owner = Owner(name: string, controller: bool)

  /** annotations is None when the document has none, so that the decoded Go map is nil. */
  datatype Pod = Pod(
    name: string, namespace: string, annotations: Option<map<string, string>>, labels: Option<map<string, string>>,
    owners: seq<Owner>, serviceAccountName: string, volumes: seq<string>,
    initContainers: seq<Container>, containers: seq<Container>)

  /** A missing member decodes like null. */
  function Field(j: Json, name: string): Json {
    if j.Obj? && name in j.fields then j.fields[name] else Null
  }

  predicate IsStruct(j: Json) {
    j.Null? || j.Obj?
  }

  function AsString(j: Json): Option<string> {
    match j
    case Null => Some("")
    case Str(s) => Some(s)
    case _ => None
  }

  function AsInt32(j: Json): Option<int> {
    match j
    case Null => Some(0)
    case Num(n) => if -0x8000_0000 <= n < 0x8000_0000 then Some(n) else None
    case _ => None
  }

  function AsBool(j: Json): Option<bool> {
    match j
    case Null => Some(false)
    case Bool(b) => Some(b)
    case _ => None
  }

  predicate Decodable(m: map<string, Json>) {
    forall k :: k in m ==> AsString(m[k]).Some?
  }

  function Strings(m: map<string, Json>): map<string, string>
    requires Decodable(m)
  {
    map k | k in m :: AsString(m[k]).value
  }

  function AsStringMap(j: Json): Option<Option<map<string, string>>> {
    match j
    case Null => Some(None)
    case Obj(m) => if Decodable(m) then Some(Some(Strings(m))) else None
    case _ => None
  }

  function DecodeAll<T>(items: seq<Json>, element: Json -> Option<T>): Option<seq<T>> {
    if items == [] then Some([])
    else
      var first, rest := element(items[0]), DecodeAll(items[1..], element);
      if first.None? || rest.None? then None else Some([first.value] + rest.value)
  }

  function AsList<T>(j: Json, element: Json -> Option<T>): Option<seq<T>> {
    match j
    case Null => Some([])
    case Arr(items) => DecodeAll(items, element)
    case _ => None
  }

  /** A volume, of which only the name matters. */
  function AsVolume(j: Json): Option<string> {
    if IsStruct(j) then AsString(Field(j, "name")) else None
  }

  function AsPort(j: Json): Option<int> {
    if IsStruct(j) then AsInt32(Field(j, "containerPort")) else None
  }

  function AsContainer(j: Json): Option<Container> {
    var name, ports := AsString(Field(j, "name")), AsList(Field(j, "ports"), AsPort);
    if IsStruct(j) && name.Some? && ports.Some? then Some(Container(name.value, ports.value)) else None
  }

  function AsOwner(j: Json): Option<Owner> {
    var name, controller := AsString(Field(j, "name")), AsBool(Field(j, "controller"));
    if IsStruct(j) && name.Some? && controller.Some? then Some(Owner(name.value, controller.value)) else None
  }

  datatype Metadata = Metadata(
    name: Option<string>, namespace: Option<string>, annotations: Option<Option<map<string, string>>>,
    labels: Option<Option<map<string, string>>>, owners: Option<seq<Owner>>)

  datatype Spec = Spec(
    serviceAccountName: Option<string>, volumes: Option<seq<string>>,
    initContainers: Option<seq<Container>>, containers: Option<seq<Container>>)

  function DecodeMetadata(j: Json): Metadata {
    Metadata(
      AsString(Field(j, "name")), AsString(Field(j, "namespace")), AsStringMap(Field(j, "annotations")),
      AsStringMap(Field(j, "labels")), AsList(Field(j, "ownerReferences"), AsOwner))
  }

  function DecodeSpec(j: Json): Spec {
    Spec(
      AsString(Field(j, "serviceAccountName")), AsList(Field(j, "volumes"), AsVolume),
      AsList(Field(j, "initContainers"), AsContainer), AsList(Field(j, "containers"), AsContainer))
  }

  /** json.Unmarshal into a pod: it fails when a member has the wrong type. */
  function Decode(doc: Json): Option<Pod> {
    var meta, spec := Field(doc, "metadata"), Field(doc, "spec");
    var m, s := DecodeMetadata(meta), DecodeSpec(spec);
    if IsStruct(doc) && IsStruct(meta) && IsStruct(spec)
       && m.name.Some? && m.namespace.Some? && m.annotations.Some? && m.labels.Some? && m.owners.Some?
       && s.serviceAccountName.Some? && s.volumes.Some? && s.initContainers.Some? && s.containers.Some?
    then
      Some(Pod(m.name.value, m.namespace.value, m.annotations.value, m.labels.value, m.owners.value,
               s.serviceAccountName.value, s.volumes.value, s.initContainers.value, s.containers.value))
    else None
  }

  lemma {:induction false} DecodeAllConcat<T>(xs: seq<Json>, ys: seq<Json>, element: Json -> Option<T>)
    requires DecodeAll(xs, element).Some? && DecodeAll(ys, element).Some?
    ensures DecodeAll(xs + ys, element) == Some(DecodeAll(xs, element).value + DecodeAll(ys, element).value)
  {
    if xs == [] {
      assert xs + ys == ys;
      assert [] + DecodeAll(ys, element).value == DecodeAll(ys, element).value;
    } else {
      assert (xs + ys)[1..] == xs[1..] + ys;
      DecodeAllConcat(xs[1..], ys, element);
      var first, rest, last := element(xs[0]).value, DecodeAll(xs[1..], element).value, DecodeAll(ys, element).value;
      assert [first] + (rest + last) == [first] + rest + last;
    }
  }

  lemma {:induction false} DecodeAllLength<T>(items: seq<Json>, element: Json -> Option<T>)
    requires DecodeAll(items, element).Some?
    ensures |DecodeAll(items, element).value| == |items|
  {
    if items != [] {
      DecodeAllLength(items[1..], element);
    }
  }
}
