/**
 Rendering one environment's overlay onto the base manifest, and the offline validation of a registry.

 A manifest is a tree of values. The functions say what each stage produces; the methods below them make
 the source's edits one after another on their own copy and are proved against the functions.
 */
module Manifests {
  import opened Common
  import Templates

  datatype Value =
    | Null
    | Str(text: string)
    | Scalar(token: string)                 // numbers and booleans
    | List(items: seq<Value>)
    | Map(fields: map<string, Value>)

  /** An overlay section: the items of a dictionary in order. */
  datatype Binding = Binding(name: string, value: string)

  datatype Overrides = Overrides(
    env: seq<Binding>,
    secrets: seq<Binding>,
    annotations: seq<Binding>,
    serviceAccount: Option<string>
  )

  datatype Environment = Environment(name: string, service: string, overrides: Overrides)

  datatype ConfigError =
    | NotAMapping(key: string)
    | NoSingleContainer
    | BadContainerEnv
    | DuplicateEnv
    | PlainValueOverSecret(name: string)
    | NoSecretReference(name: string)
    | BadTemplate(error: Templates.TemplateError)
    | EmptyString(what: string)

  ghost predicate DistinctNames(bindings: seq<Binding>) {
    forall i, j :: 0 <= i < j < |bindings| ==> bindings[i].name != bindings[j].name
  }

  /** The sections of an overlay are dictionaries, so their names are distinct. */
  ghost predicate OverridesOk(o: Overrides) {
    DistinctNames(o.env) && DistinctNames(o.secrets) && DistinctNames(o.annotations)
  }

  /* ---------- reading and writing fields ---------- */

  /** `v.get(key)`: null when the key is absent, or when `v` is no mapping at all. */
  function Get(v: Value, key: string): Value {
    if v.Map? && key in v.fields then v.fields[key] else Null
  }

  function Put(v: Value, key: string, x: Value): Value
    requires v.Map?
  {
    Map(v.fields[key := x])
  }

  /** `_child_mapping`: the mapping under `key`, an empty one when absent or null. */
  function ChildMapping(v: Value, key: string): Result<Value, ConfigError> {
    match Get(v, key)
    case Null => Success(Map(map[]))
    case Map(fields) => Success(Map(fields))
    case _ => Failure(NotAMapping(key))
  }

  function PutAll(v: Value, bindings: seq<Binding>): Value
    requires v.Map?
    ensures PutAll(v, bindings).Map?
  {
    if bindings == [] then v
    else Put(PutAll(v, bindings[..|bindings| - 1]), bindings[|bindings| - 1].name, Str(bindings[|bindings| - 1].value))
  }

  /* ---------- the container and its env ---------- */

  function TemplateOf(manifest: Value): Value {
    Get(Get(manifest, "spec"), "template")
  }

  function TemplateSpecOf(manifest: Value): Value {
    Get(TemplateOf(manifest), "spec")
  }

  function ContainersOf(manifest: Value): Value {
    Get(TemplateSpecOf(manifest), "containers")
  }

  predicate AllMaps(entries: seq<Value>) {
    forall i :: 0 <= i < |entries| ==> entries[i].Map?
  }

  predicate UniqueNames(entries: seq<Value>) {
    forall i, j :: 0 <= i < j < |entries| ==> Get(entries[i], "name") != Get(entries[j], "name")
  }

  /** The single container with its list of env entries, an empty list when it declares none. */
  function SingleContainer(manifest: Value): (r: Result<(Value, seq<Value>), ConfigError>)
    ensures r.Success? ==> r.value.0.Map? && AllMaps(r.value.1) && UniqueNames(r.value.1)
  {
    var containers := ContainersOf(manifest);
    if !containers.List? || |containers.items| != 1 || !containers.items[0].Map? then Failure(NoSingleContainer)
    else
      var container := containers.items[0];
      match Get(container, "env")
      case Null => Success((container, []))
      case List(entries) =>
        if !AllMaps(entries) then Failure(BadContainerEnv)
        else if !UniqueNames(entries) then Failure(DuplicateEnv)
        else Success((container, entries))
      case _ => Failure(BadContainerEnv)
  }

  /** The position of the entry called `name`. */
  function FindEntry(entries: seq<Value>, name: string): (r: Option<nat>)
    ensures r.Some? ==> r.value < |entries| && Get(entries[r.value], "name") == Str(name)
    ensures r.Some? ==> forall i :: 0 <= i < r.value ==> Get(entries[i], "name") != Str(name)
    ensures r.None? ==> forall i :: 0 <= i < |entries| ==> Get(entries[i], "name") != Str(name)
  {
    if entries == [] then None
    else if Get(entries[0], "name") == Str(name) then Some(0)
    else match FindEntry(entries[1..], name)
         case None => None
         case Some(i) => Some(i + 1)
  }

  predicate HasValueFrom(entry: Value) {
    entry.Map? && "valueFrom" in entry.fields
  }

  /** The entry points at a secret in a way an overlay may re-point. */
  predicate HasSecretRef(entry: Value) {
    Get(Get(entry, "valueFrom"), "secretKeyRef").Map?
  }

  function PlainEntry(name: string, value: string): Value {
    Map(map["name" := Str(name), "value" := Str(value)])
  }

  function WithSecret(entry: Value, secret: string): Value
    requires entry.Map? && HasSecretRef(entry)
  {
    var source := Get(entry, "valueFrom");
    Put(entry, "valueFrom", Put(source, "secretKeyRef", Put(Get(source, "secretKeyRef"), "name", Str(secret))))
  }

  function SetEnv(entries: seq<Value>, b: Binding): Result<seq<Value>, ConfigError>
    requires AllMaps(entries)
  {
    match FindEntry(entries, b.name)
    case None => Success(entries + [PlainEntry(b.name, b.value)])
    case Some(i) =>
      if HasValueFrom(entries[i]) then Failure(PlainValueOverSecret(b.name))
      else Success(entries[i := Put(entries[i], "value", Str(b.value))])
  }

  function SetSecret(entries: seq<Value>, b: Binding): Result<seq<Value>, ConfigError>
    requires AllMaps(entries)
  {
    match FindEntry(entries, b.name)
    case None => Failure(NoSecretReference(b.name))
    case Some(i) =>
      if !HasSecretRef(entries[i]) then Failure(NoSecretReference(b.name))
      else Success(entries[i := WithSecret(entries[i], b.value)])
  }

  /** All plain overrides applied in order. */
  function ApplyEnv(entries: seq<Value>, bindings: seq<Binding>): (r: Result<seq<Value>, ConfigError>)
    requires AllMaps(entries)
    ensures r.Success? ==> AllMaps(r.value)
  {
    if bindings == [] then Success(entries)
    else
      var before :- ApplyEnv(entries, bindings[..|bindings| - 1]);
      SetEnv(before, bindings[|bindings| - 1])
  }

  /** All secret overrides applied in order. */
  function ApplySecrets(entries: seq<Value>, bindings: seq<Binding>): (r: Result<seq<Value>, ConfigError>)
    requires AllMaps(entries)
    ensures r.Success? ==> AllMaps(r.value)
  {
    if bindings == [] then Success(entries)
    else
      var before :- ApplySecrets(entries, bindings[..|bindings| - 1]);
      SetSecret(before, bindings[|bindings| - 1])
  }

  /* ---------- placeholders ---------- */

  function FillText(text: string, variables: map<string, string>): Result<string, ConfigError> {
    match Templates.Substitute(text, variables)
    case Success(filled) => Success(filled)
    case Failure(e) => Failure(BadTemplate(e))
  }

  function FillBindings(bindings: seq<Binding>, variables: map<string, string>): Result<seq<Binding>, ConfigError> {
    if bindings == [] then Success([])
    else
      var filled :- FillText(bindings[0].value, variables);
      var rest :- FillBindings(bindings[1..], variables);
      Success([Binding(bindings[0].name, filled)] + rest)
  }

  function SubstituteOverrides(o: Overrides, variables: map<string, string>): Result<Overrides, ConfigError> {
    var env :- FillBindings(o.env, variables);
    var secrets :- FillBindings(o.secrets, variables);
    var annotations :- FillBindings(o.annotations, variables);
    var account :- if o.serviceAccount.None? then Success(None)
                   else match FillText(o.serviceAccount.value, variables)
                        case Success(filled) => Success(Some(filled))
                        case Failure(e) => Failure(e);
    Success(Overrides(env, secrets, annotations, account))
  }

  /* ---------- rendering ---------- */

  /** The manifest's `metadata`: the service's name and label over whatever the base has. */
  function RenderMetadata(base: Value, service: string): Result<Value, ConfigError> {
    var metadata :- ChildMapping(base, "metadata");
    var labels :- ChildMapping(metadata, "labels");
    Success(Put(Put(metadata, "name", Str(service)), "labels", Put(labels, "app", Str(service))))
  }

  /** The template's `metadata` with the overlay's annotations. */
  function RenderTemplateMetadata(template: Value, bindings: seq<Binding>): Result<Value, ConfigError> {
    var metadata :- ChildMapping(template, "metadata");
    var annotations :- ChildMapping(metadata, "annotations");
    Success(Put(metadata, "annotations", PutAll(annotations, bindings)))
  }

  function RenderContainer(container: Value, entries: seq<Value>, o: Overrides, image: string): Result<Value, ConfigError>
    requires container.Map? && AllMaps(entries)
  {
    var plain :- ApplyEnv(entries, o.env);
    var all :- ApplySecrets(plain, o.secrets);
    if image == "" then Failure(EmptyString("image"))
    else Success(Put(Put(container, "env", List(all)), "image", Str(image)))
  }

  function RenderTemplateSpec(spec: Value, container: Value, account: Option<string>): Value
    requires spec.Map?
  {
    var withContainer := Put(spec, "containers", List([container]));
    if account.None? then withContainer else Put(withContainer, "serviceAccountName", Str(account.value))
  }

  /** Rendering once every placeholder is filled. */
  function RenderFilled(base: Value, service: string, o: Overrides, image: string): Result<Value, ConfigError>
    requires base.Map?
  {
    var (container, entries) :- SingleContainer(base);
    var metadata :- RenderMetadata(base, service);
    var templateMetadata :- RenderTemplateMetadata(TemplateOf(base), o.annotations);
    var container' :- RenderContainer(container, entries, o, image);
    var spec := RenderTemplateSpec(TemplateSpecOf(base), container', o.serviceAccount);
    Success(Assemble(base, metadata, templateMetadata, spec))
  }

  /** Put the rendered parts back into their places. */
  function Assemble(base: Value, metadata: Value, templateMetadata: Value, templateSpec: Value): Value
    requires base.Map? && TemplateOf(base).Map?
  {
    var template := Put(Put(TemplateOf(base), "metadata", templateMetadata), "spec", templateSpec);
    Put(Put(base, "metadata", metadata), "spec", Put(Get(base, "spec"), "template", template))
  }

  function Render(base: Value, environment: Environment, image: string, variables: map<string, string>): Result<Value, ConfigError> {
    if !base.Map? then Failure(NotAMapping("manifest"))
    else
      var _ :- SingleContainer(base);
      var o :- SubstituteOverrides(environment.overrides, variables);
      RenderFilled(base, environment.service, o, image)
  }
}
