/** The renderer as the source runs it: one edit after another on its own copy of the manifest. */
module ManifestEdits {
  import opened Common
  import opened Manifests

  /** The first entry of that name. */
  method EnvEntry(entries: seq<Value>, name: string) returns (r: Option<nat>)
    ensures r == FindEntry(entries, name)
  {
    for i := 0 to |entries|
      invariant forall j :: 0 <= j < i ==> Get(entries[j], "name") != Str(name)
    {
      if Get(entries[i], "name") == Str(name) {
        return Some(i);
      }
    }
    return None;
  }

  method ApplyEnvTo(container: seq<Value>, values: seq<Binding>) returns (r: Result<seq<Value>, ConfigError>)
    requires AllMaps(container)
    ensures r == ApplyEnv(container, values)
  {
    var entries := container;
    for k := 0 to |values|
      invariant ApplyEnv(container, values[..k]) == Success(entries)
    {
      assert values[..k + 1][..k] == values[..k];
      var b := values[k];
      var entry := EnvEntry(entries, b.name);
      if entry.None? {
        entries := entries + [Map(map["name" := Str(b.name), "value" := Str(b.value)])];
      } else if HasValueFrom(entries[entry.value]) {
        EnvFailureStays(container, values, k + 1);
        return Failure(PlainValueOverSecret(b.name));
      } else {
        entries := entries[entry.value := Put(entries[entry.value], "value", Str(b.value))];
      }
    }
    assert values[..|values|] == values;
    return Success(entries);
  }

  /** The first override that fails decides the error of the whole. */
  lemma {:induction false} EnvFailureStays(entries: seq<Value>, values: seq<Binding>, k: nat)
    requires AllMaps(entries) && k <= |values| && ApplyEnv(entries, values[..k]).Failure?
    ensures ApplyEnv(entries, values) == ApplyEnv(entries, values[..k])
    decreases values
  {
    if k == |values| {
      assert values[..k] == values;
    } else {
      var rest := values[..|values| - 1];
      assert rest[..k] == values[..k];
      EnvFailureStays(entries, rest, k);
    }
  }

  method ApplySecretsTo(container: seq<Value>, secrets: seq<Binding>) returns (r: Result<seq<Value>, ConfigError>)
    requires AllMaps(container)
    ensures r == ApplySecrets(container, secrets)
  {
    var entries := container;
    for k := 0 to |secrets|
      invariant ApplySecrets(container, secrets[..k]) == Success(entries)
    {
      assert secrets[..k + 1][..k] == secrets[..k];
      var b := secrets[k];
      var entry := EnvEntry(entries, b.name);
      if entry.None? || !HasSecretRef(entries[entry.value]) {
        SecretFailureStays(container, secrets, k + 1);
        return Failure(NoSecretReference(b.name));
      }
      entries := entries[entry.value := WithSecret(entries[entry.value], b.value)];
    }
    assert secrets[..|secrets|] == secrets;
    return Success(entries);
  }

  lemma {:induction false} SecretFailureStays(entries: seq<Value>, secrets: seq<Binding>, k: nat)
    requires AllMaps(entries) && k <= |secrets| && ApplySecrets(entries, secrets[..k]).Failure?
    ensures ApplySecrets(entries, secrets) == ApplySecrets(entries, secrets[..k])
    decreases secrets
  {
    if k == |secrets| {
      assert secrets[..k] == secrets;
    } else {
      var rest := secrets[..|secrets| - 1];
      assert rest[..k] == secrets[..k];
      SecretFailureStays(entries, rest, k);
    }
  }

  /** Annotations are set one by one. */
  method SetAnnotations(annotations: Value, values: seq<Binding>) returns (r: Value)
    requires annotations.Map?
    ensures r == PutAll(annotations, values)
  {
    r := annotations;
    for k := 0 to |values|
      invariant r == PutAll(annotations, values[..k])
    {
      assert values[..k + 1][..k] == values[..k];
      r := Put(r, values[k].name, Str(values[k].value));
    }
    assert values[..|values|] == values;
  }

  method EditMetadata(manifest: Value, service: string) returns (r: Result<Value, ConfigError>)
    ensures r == RenderMetadata(manifest, service)
  {
    var metadata :- ChildMapping(manifest, "metadata");
    metadata := Put(metadata, "name", Str(service));
    var labels :- ChildMapping(metadata, "labels");
    metadata := Put(metadata, "labels", Put(labels, "app", Str(service)));
    return Success(metadata);
  }

  method EditTemplateMetadata(template: Value, values: seq<Binding>) returns (r: Result<Value, ConfigError>)
    ensures r == RenderTemplateMetadata(template, values)
  {
    var metadata :- ChildMapping(template, "metadata");
    var annotations :- ChildMapping(metadata, "annotations");
    annotations := SetAnnotations(annotations, values);
    return Success(Put(metadata, "annotations", annotations));
  }

  method EditContainer(container: Value, entries: seq<Value>, o: Overrides, image: string) returns (r: Result<Value, ConfigError>)
    requires container.Map? && AllMaps(entries)
    ensures r == RenderContainer(container, entries, o, image)
  {
    var env :- ApplyEnvTo(entries, o.env);
    env :- ApplySecretsTo(env, o.secrets);
    if image == "" {
      return Failure(EmptyString("image"));
    }
    return Success(Put(Put(container, "env", List(env)), "image", Str(image)));
  }

  method RenderManifest(base: Value, environment: Environment, image: string, variables: map<string, string>)
    returns (r: Result<Value, ConfigError>)
    ensures r == Render(base, environment, image, variables)
  {
    hide SubstituteOverrides, RenderMetadata, RenderTemplateMetadata, RenderContainer;
    if !base.Map? {
      return Failure(NotAMapping("manifest"));
    }
    var manifest := base;
    var single :- SingleContainer(manifest);
    var (container, entries) := single;
    var o :- SubstituteOverrides(environment.overrides, variables);

    var metadata :- EditMetadata(manifest, environment.service);
    manifest := Put(manifest, "metadata", metadata);

    var template := TemplateOf(base);
    var templateMetadata :- EditTemplateMetadata(template, o.annotations);
    template := Put(template, "metadata", templateMetadata);

    container :- EditContainer(container, entries, o, image);
    var spec := Put(TemplateSpecOf(base), "containers", List([container]));
    if o.serviceAccount.Some? {
      spec := Put(spec, "serviceAccountName", Str(o.serviceAccount.value));
    }
    template := Put(template, "spec", spec);
    manifest := Put(manifest, "spec", Put(Get(base, "spec"), "template", template));
    return Success(manifest);
  }
}
