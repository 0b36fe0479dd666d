/** What rendering does, said by paths into the manifest and by substitution of the overlay's own templates. */
module ManifestMeaning {
  import opened Common
  import opened Manifests
  import opened ManifestGuarantees
  import ManifestFrame
  import Templates

  /** The value reached by following `path` through mappings. */
  function Lookup(v: Value, path: seq<string>): Option<Value>
    decreases path
  {
    if path == [] then Some(v)
    else if v.Map? && path[0] in v.fields then Lookup(v.fields[path[0]], path[1..])
    else None
  }

  lemma StepInto(v: Value, key: string, rest: seq<string>)
    requires Get(v, key) != Null
    ensures Lookup(v, [key] + rest) == Lookup(Get(v, key), rest)
  {
    assert ([key] + rest)[1..] == rest;
  }

  lemma LookupOne(v: Value, key: string)
    ensures Lookup(v, [key]) == if v.Map? && key in v.fields then Some(v.fields[key]) else None
    ensures Get(v, key) != Null ==> Lookup(v, [key]) == Some(Get(v, key))
  {
    assert [key][1..] == [];
  }

  lemma LookupTwo(v: Value, a: string, b: string)
    requires Get(Get(v, a), b) != Null
    ensures Lookup(v, [a, b]) == Some(Get(Get(v, a), b))
  {
    StepInto(v, a, [b]);
    LookupOne(Get(v, a), b);
    assert [a, b] == [a] + [b];
  }

  lemma LookupThree(v: Value, a: string, b: string, c: string)
    requires Get(Get(Get(v, a), b), c) != Null
    ensures Lookup(v, [a, b, c]) == Some(Get(Get(Get(v, a), b), c))
  {
    StepInto(v, a, [b, c]);
    LookupTwo(Get(v, a), b, c);
    assert [a, b, c] == [a] + [b, c];
  }

  lemma LookupFour(v: Value, a: string, b: string, c: string, d: string)
    requires Get(Get(Get(Get(v, a), b), c), d) != Null
    ensures Lookup(v, [a, b, c, d]) == Some(Get(Get(Get(Get(v, a), b), c), d))
  {
    StepInto(v, a, [b, c, d]);
    LookupThree(Get(v, a), b, c, d);
    assert [a, b, c, d] == [a] + [b, c, d];
  }

  lemma LookupFive(v: Value, a: string, b: string, c: string, d: string, e: string)
    requires Get(Get(Get(Get(Get(v, a), b), c), d), e) != Null
    ensures Lookup(v, [a, b, c, d, e]) == Some(Get(Get(Get(Get(Get(v, a), b), c), d), e))
  {
    StepInto(v, a, [b, c, d, e]);
    LookupFour(Get(v, a), b, c, d, e);
    assert [a, b, c, d, e] == [a] + [b, c, d, e];
  }

  /* ---------- filling an overlay ---------- */

  /** Each binding keeps its name and gets its own template's substitution. */
  ghost predicate Substituted(bindings: seq<Binding>, filled: seq<Binding>, variables: map<string, string>) {
    && |filled| == |bindings|
    && forall k :: 0 <= k < |bindings| ==>
         filled[k].name == bindings[k].name && Templates.Substitute(bindings[k].value, variables) == Success(filled[k].value)
  }

  lemma {:induction false} FillBindingsAre(bindings: seq<Binding>, variables: map<string, string>)
    requires FillBindings(bindings, variables).Success?
    ensures Substituted(bindings, FillBindings(bindings, variables).value, variables)
  {
    if bindings != [] {
      FillBindingsAre(bindings[1..], variables);
      var filled := FillBindings(bindings, variables).value;
      assert filled[1..] == FillBindings(bindings[1..], variables).value;
      assert forall k :: 1 <= k < |bindings| ==> bindings[k] == bindings[1..][k - 1] && filled[k] == filled[1..][k - 1];
    }
  }

  /** A filled overlay holds, value for value, what PEP 292 substitution makes of its templates. */
  lemma SubstituteOverridesAre(o: Overrides, variables: map<string, string>)
    requires SubstituteOverrides(o, variables).Success?
    ensures var filled := SubstituteOverrides(o, variables).value;
            && Substituted(o.env, filled.env, variables) && Substituted(o.secrets, filled.secrets, variables)
            && Substituted(o.annotations, filled.annotations, variables)
            && (o.serviceAccount.None? <==> filled.serviceAccount.None?)
            && (o.serviceAccount.Some? ==>
                  Templates.Substitute(o.serviceAccount.value, variables) == Success(filled.serviceAccount.value))
  {
    FillBindingsAre(o.env, variables);
    FillBindingsAre(o.secrets, variables);
    FillBindingsAre(o.annotations, variables);
  }

  /* ---------- the rendered manifest ---------- */

  /** Some entry called `name` has `text` at `path`. */
  ghost predicate EntryHolds(entries: seq<Value>, name: string, path: seq<string>, text: string) {
    exists i :: 0 <= i < |entries|
                && Lookup(entries[i], ["name"]) == Some(Str(name)) && Lookup(entries[i], path) == Some(Str(text))
  }

  /** Every binding's own template, substituted, stands at `path` in the entry of its name. */
  ghost predicate EntriesHold(entries: seq<Value>, bindings: seq<Binding>, path: seq<string>, variables: map<string, string>) {
    forall k :: 0 <= k < |bindings| ==>
      match Templates.Substitute(bindings[k].value, variables)
      case Success(text) => EntryHolds(entries, bindings[k].name, path, text)
      case Failure(_) => false
  }

  /** The same for bindings that are fields of the mapping at `path`. */
  ghost predicate FieldsHold(manifest: Value, bindings: seq<Binding>, path: seq<string>, variables: map<string, string>) {
    forall k :: 0 <= k < |bindings| ==>
      match Templates.Substitute(bindings[k].value, variables)
      case Success(text) => Lookup(manifest, path + [bindings[k].name]) == Some(Str(text))
      case Failure(_) => false
  }

  lemma EnvIsThere(entries: seq<Value>, env: seq<Binding>, filled: seq<Binding>, variables: map<string, string>)
    requires ManifestFrame.AllEnvInForce(entries, filled) && Substituted(env, filled, variables)
    ensures EntriesHold(entries, env, ["value"], variables)
  {
    forall k | 0 <= k < |env| ensures EntryHolds(entries, env[k].name, ["value"], filled[k].value) {
      assert ManifestFrame.EnvHolds(entries, filled[k]);
      var i :| 0 <= i < |entries| && ManifestFrame.EnvInForce(entries, filled[k], i);
      LookupOne(entries[i], "name");
      LookupOne(entries[i], "value");
    }
  }

  lemma SecretsAreThere(entries: seq<Value>, secrets: seq<Binding>, filled: seq<Binding>, variables: map<string, string>)
    requires ManifestFrame.AllSecretsInForce(entries, filled) && Substituted(secrets, filled, variables)
    ensures EntriesHold(entries, secrets, ["valueFrom", "secretKeyRef", "name"], variables)
  {
    forall k | 0 <= k < |secrets|
      ensures EntryHolds(entries, secrets[k].name, ["valueFrom", "secretKeyRef", "name"], filled[k].value)
    {
      assert ManifestFrame.SecretHolds(entries, filled[k]);
      var i :| 0 <= i < |entries| && ManifestFrame.SecretInForce(entries, filled[k], i);
      LookupOne(entries[i], "name");
      LookupThree(entries[i], "valueFrom", "secretKeyRef", "name");
    }
  }

  lemma AnnotationsAreThere(out: Value, annotations: seq<Binding>, filled: seq<Binding>, variables: map<string, string>)
    requires Substituted(annotations, filled, variables)
    requires forall k :: 0 <= k < |filled| ==> Get(ManifestFrame.AnnotationsOf(out), filled[k].name) == Str(filled[k].value)
    ensures FieldsHold(out, annotations, ["spec", "template", "metadata", "annotations"], variables)
  {
    forall k | 0 <= k < |annotations|
      ensures Lookup(out, ["spec", "template", "metadata", "annotations"] + [annotations[k].name]) == Some(Str(filled[k].value))
    {
      LookupFive(out, "spec", "template", "metadata", "annotations", filled[k].name);
      assert ["spec", "template", "metadata", "annotations"] + [annotations[k].name]
          == ["spec", "template", "metadata", "annotations", annotations[k].name];
    }
  }

  /** What a rendered manifest says, path by path; every overlay value is the substitution of its own template. */
  ghost predicate Says(out: Value, environment: Environment, image: string, variables: map<string, string>, entries: seq<Value>) {
    var o := environment.overrides;
    && Lookup(out, ["metadata", "name"]) == Some(Str(environment.service))
    && Lookup(out, ["metadata", "labels", "app"]) == Some(Str(environment.service))
    && SoleContainer(out, image, entries)
    && EntriesHold(entries, o.env, ["value"], variables)
    && EntriesHold(entries, o.secrets, ["valueFrom", "secretKeyRef", "name"], variables)
    && FieldsHold(out, o.annotations, ["spec", "template", "metadata", "annotations"], variables)
    && (o.serviceAccount.Some? ==>
          match Templates.Substitute(o.serviceAccount.value, variables)
          case Success(text) => Lookup(out, ["spec", "template", "spec", "serviceAccountName"]) == Some(Str(text))
          case Failure(_) => false)
  }

  /** There is one container, with this image and these env entries. */
  ghost predicate SoleContainer(out: Value, image: string, entries: seq<Value>) {
    exists container: Value ::
      && Lookup(out, ["spec", "template", "spec", "containers"]) == Some(List([container]))
      && Lookup(container, ["image"]) == Some(Str(image)) && Lookup(container, ["env"]) == Some(List(entries))
  }

  lemma ContainerIsThere(out: Value, service: string, image: string, o: Overrides)
    requires ManifestFrame.InForce(out, service, image, o)
    ensures SoleContainer(out, image, SingleContainer(out).value.1)
  {
    hide ManifestFrame.AllEnvInForce, ManifestFrame.AllSecretsInForce;
    var container := SingleContainer(out).value.0;
    assert ContainersOf(out).items == [container];
    LookupFour(out, "spec", "template", "spec", "containers");
    LookupOne(container, "image");
    LookupOne(container, "env");
    assert Lookup(out, ["spec", "template", "spec", "containers"]) == Some(List([container]));
  }

  /** Rendering puts the substituted overlay, the image and the service in their places. */
  lemma RenderSaysTheOverlay(base: Value, environment: Environment, image: string, variables: map<string, string>)
    returns (entries: seq<Value>)
    requires OverridesOk(environment.overrides) && Render(base, environment, image, variables).Success?
    ensures Says(Render(base, environment, image, variables).value, environment, image, variables, entries)
  {
    var out := Render(base, environment, image, variables).value;
    var o := SubstituteOverrides(environment.overrides, variables).value;
    SubstituteOverridesAre(environment.overrides, variables);
    ManifestFrame.RenderChangesOnlyTheOverlay(base, environment, image, variables, "");
    entries := SingleContainer(out).value.1;
    InForceSays(out, environment, image, variables, o);
  }

  lemma InForceSays(out: Value, environment: Environment, image: string, variables: map<string, string>, o: Overrides)
    requires ManifestFrame.InForce(out, environment.service, image, o)
    requires Substituted(environment.overrides.env, o.env, variables)
    requires Substituted(environment.overrides.secrets, o.secrets, variables)
    requires Substituted(environment.overrides.annotations, o.annotations, variables)
    requires environment.overrides.serviceAccount.Some? ==>
               o.serviceAccount.Some?
               && Templates.Substitute(environment.overrides.serviceAccount.value, variables) == Success(o.serviceAccount.value)
    ensures Says(out, environment, image, variables, SingleContainer(out).value.1)
  {
    hide SingleContainer, EntriesHold, FieldsHold, Substituted, ManifestFrame.AllEnvInForce, ManifestFrame.AllSecretsInForce;
    var entries := SingleContainer(out).value.1;
    ContainerIsThere(out, environment.service, image, o);
    EnvIsThere(entries, environment.overrides.env, o.env, variables);
    SecretsAreThere(entries, environment.overrides.secrets, o.secrets, variables);
    AnnotationsAreThere(out, environment.overrides.annotations, o.annotations, variables);
    LookupTwo(out, "metadata", "name");
    LookupThree(out, "metadata", "labels", "app");
    if environment.overrides.serviceAccount.Some? {
      LookupFour(out, "spec", "template", "spec", "serviceAccountName");
    }
  }

  /* ---------- when an overlay fits ---------- */

  /** Nothing is at `path`, or null, or a mapping. */
  predicate MappingOrNothing(v: Value, path: seq<string>) {
    match Lookup(v, path)
    case None => true
    case Some(Null) => true
    case Some(Map(_)) => true
    case _ => false
  }

  /** The mapping's `name` field; null counts as none. */
  function NameOf(entry: Value): Value {
    match Lookup(entry, ["name"])
    case Some(name) => name
    case None => Null
  }

  predicate EntriesOk(entries: seq<Value>) {
    && (forall i :: 0 <= i < |entries| ==> entries[i].Map?)
    && (forall i, j :: 0 <= i < j < |entries| ==> NameOf(entries[i]) != NameOf(entries[j]))
  }

  /** The manifest declares exactly one container, with these env entries, all mappings and no two of one name. */
  predicate HasEntries(manifest: Value, entries: seq<Value>) {
    match Lookup(manifest, ["spec", "template", "spec", "containers"])
    case Some(List(containers)) =>
      && |containers| == 1 && containers[0].Map? && EntriesOk(entries)
      && (match Lookup(containers[0], ["env"])
          case None => entries == []
          case Some(Null) => entries == []
          case Some(List(items)) => entries == items
          case _ => false)
    case _ => false
  }

  lemma GetOrNothing(v: Value, key: string)
    ensures Get(v, key) == match Lookup(v, [key]) case Some(x) => x case None => Null
  {
    LookupOne(v, key);
  }

  lemma {:induction false} LookupStops(v: Value, path: seq<string>, rest: seq<string>)
    requires path != [] && (Lookup(v, path).None? || !Lookup(v, path).value.Map?) && rest != []
    ensures Lookup(v, path + rest).None?
    decreases path
  {
    assert (path + rest)[1..] == path[1..] + rest;
    if v.Map? && path[0] in v.fields {
      if |path| == 1 {
        assert path[1..] + rest == rest;
        assert Lookup(v, path) == Some(v.fields[path[0]]) by {
          assert path[1..] == [];
        }
      } else {
        LookupStops(v.fields[path[0]], path[1..], rest);
      }
    }
  }

  /** `Get` along a path is `Lookup`, where null stands for nothing. */
  lemma GetPath(v: Value, path: seq<string>, key: string)
    ensures var here := match Lookup(v, path) case Some(x) => x case None => Null;
            Get(here, key) == match Lookup(v, path + [key]) case Some(x) => x case None => Null
  {
    LookupSnoc(v, path, key);
  }

  lemma {:induction false} LookupSnoc(v: Value, path: seq<string>, key: string)
    ensures Lookup(v, path + [key])
         == match Lookup(v, path)
            case Some(Map(fields)) => if key in fields then Some(fields[key]) else None
            case _ => None
    decreases path
  {
    if path == [] {
      assert path + [key] == [key] && [key][1..] == [];
    } else {
      assert (path + [key])[1..] == path[1..] + [key];
      if v.Map? && path[0] in v.fields {
        LookupSnoc(v.fields[path[0]], path[1..], key);
      }
    }
  }

  function OrNull(v: Option<Value>): Value {
    match v
    case Some(x) => x
    case None => Null
  }

  lemma PathsAre(manifest: Value)
    ensures Get(manifest, "metadata") == OrNull(Lookup(manifest, ["metadata"]))
    ensures Get(Get(manifest, "metadata"), "labels") == OrNull(Lookup(manifest, ["metadata", "labels"]))
    ensures TemplateOf(manifest) == OrNull(Lookup(manifest, ["spec", "template"]))
    ensures ContainersOf(manifest) == OrNull(Lookup(manifest, ["spec", "template", "spec", "containers"]))
    ensures Get(TemplateOf(manifest), "metadata") == OrNull(Lookup(manifest, ["spec", "template", "metadata"]))
    ensures Get(Get(TemplateOf(manifest), "metadata"), "annotations")
         == OrNull(Lookup(manifest, ["spec", "template", "metadata", "annotations"]))
  {
    hide Lookup, Get;
    GetOrNothing(manifest, "metadata");
    GetPath(manifest, ["metadata"], "labels");
    assert ["metadata"] + ["labels"] == ["metadata", "labels"];
    GetOrNothing(manifest, "spec");
    GetPath(manifest, ["spec"], "template");
    assert ["spec"] + ["template"] == ["spec", "template"];
    GetPath(manifest, ["spec", "template"], "metadata");
    assert ["spec", "template"] + ["metadata"] == ["spec", "template", "metadata"];
    GetPath(manifest, ["spec", "template", "metadata"], "annotations");
    assert ["spec", "template", "metadata"] + ["annotations"] == ["spec", "template", "metadata", "annotations"];
    GetPath(manifest, ["spec", "template"], "spec");
    assert ["spec", "template"] + ["spec"] == ["spec", "template", "spec"];
    GetPath(manifest, ["spec", "template", "spec"], "containers");
    assert ["spec", "template", "spec"] + ["containers"] == ["spec", "template", "spec", "containers"];
  }

  lemma EntriesOkIs(entries: seq<Value>)
    ensures EntriesOk(entries) <==> AllMaps(entries) && UniqueNames(entries)
  {
    forall i | 0 <= i < |entries| ensures NameOf(entries[i]) == Get(entries[i], "name") {
      GetOrNothing(entries[i], "name");
    }
  }

  /** A container is found exactly in a manifest that declares one, and with exactly its env entries. */
  lemma SingleContainerIff(manifest: Value, entries: seq<Value>)
    ensures HasEntries(manifest, entries) <==>
            SingleContainer(manifest).Success? && SingleContainer(manifest).value.1 == entries
  {
    PathsAre(manifest);
    EntriesOkIs(entries);
    hide EntriesOk, AllMaps, UniqueNames;
    if ContainersOf(manifest).List? && |ContainersOf(manifest).items| == 1 {
      var container := ContainersOf(manifest).items[0];
      GetOrNothing(container, "env");
      EntriesOkIs([]);
      assert AllMaps([]) && UniqueNames([]) by {
        NoEntries();
      }
    }
  }

  lemma NoEntries()
    ensures AllMaps([]) && UniqueNames([])
  {
  }

  predicate NamedEntry(entry: Value, name: string) {
    Lookup(entry, ["name"]) == Some(Str(name))
  }

  /** No plain override meets an entry that takes its value from elsewhere; each secret override has a reference to re-point. */
  ghost predicate Fits(entries: seq<Value>, o: Overrides) {
    && (forall k, i :: 0 <= k < |o.env| && 0 <= i < |entries| && NamedEntry(entries[i], o.env[k].name) ==>
          Lookup(entries[i], ["valueFrom"]).None?)
    && (forall k :: 0 <= k < |o.secrets| ==> HasReference(entries, o.secrets[k].name))
  }

  ghost predicate HasReference(entries: seq<Value>, name: string) {
    exists i :: 0 <= i < |entries| && NamedEntry(entries[i], name)
                && Lookup(entries[i], ["valueFrom", "secretKeyRef"]).Some?
                && Lookup(entries[i], ["valueFrom", "secretKeyRef"]).value.Map?
  }

  lemma EntryShape(entry: Value, name: string)
    ensures NamedEntry(entry, name) <==> Get(entry, "name") == Str(name)
    ensures HasValueFrom(entry) <==> Lookup(entry, ["valueFrom"]).Some?
    ensures HasSecretRef(entry) <==>
            Lookup(entry, ["valueFrom", "secretKeyRef"]).Some? && Lookup(entry, ["valueFrom", "secretKeyRef"]).value.Map?
  {
    LookupOne(entry, "name");
    LookupOne(entry, "valueFrom");
    GetOrNothing(entry, "valueFrom");
    GetPath(entry, ["valueFrom"], "secretKeyRef");
    assert ["valueFrom"] + ["secretKeyRef"] == ["valueFrom", "secretKeyRef"];
  }

  /** An env entry of this name that takes its value from elsewhere. */
  ghost predicate Clashes(entries: seq<Value>, name: string) {
    exists i :: 0 <= i < |entries| && Get(entries[i], "name") == Str(name) && HasValueFrom(entries[i])
  }

  ghost predicate Referenced(entries: seq<Value>, name: string) {
    exists i :: 0 <= i < |entries| && Get(entries[i], "name") == Str(name) && HasSecretRef(entries[i])
  }

  lemma SetEnvKeepsKinds(entries: seq<Value>, b: Binding, name: string)
    requires AllMaps(entries) && UniqueNames(entries) && SetEnv(entries, b).Success?
    ensures UniqueNames(SetEnv(entries, b).value)
    ensures Clashes(SetEnv(entries, b).value, name) <==> Clashes(entries, name)
    ensures Referenced(SetEnv(entries, b).value, name) <==> Referenced(entries, name)
  {
    var after := SetEnv(entries, b).value;
    assert |entries| <= |after|;
    forall i | 0 <= i < |entries|
      ensures Get(after[i], "name") == Get(entries[i], "name") && HasValueFrom(after[i]) == HasValueFrom(entries[i])
      ensures HasSecretRef(after[i]) == HasSecretRef(entries[i])
    {
    }
    assert forall i :: |entries| <= i < |after| ==> !HasValueFrom(after[i]) && !HasSecretRef(after[i]);
    hide SetEnv, HasValueFrom, HasSecretRef;
    if i :| 0 <= i < |entries| && Get(entries[i], "name") == Str(name) && HasValueFrom(entries[i]) {
      assert Get(after[i], "name") == Str(name) && HasValueFrom(after[i]);
    }
    if i :| 0 <= i < |entries| && Get(entries[i], "name") == Str(name) && HasSecretRef(entries[i]) {
      assert Get(after[i], "name") == Str(name) && HasSecretRef(after[i]);
    }
  }

  lemma SetEnvSucceeds(entries: seq<Value>, b: Binding)
    requires AllMaps(entries) && UniqueNames(entries)
    ensures SetEnv(entries, b).Success? <==> !Clashes(entries, b.name)
  {
    var found := FindEntry(entries, b.name);
  }

  lemma {:induction false} ApplyEnvSucceeds(entries: seq<Value>, env: seq<Binding>)
    requires AllMaps(entries) && UniqueNames(entries)
    ensures ApplyEnv(entries, env).Success? <==> forall k :: 0 <= k < |env| ==> !Clashes(entries, env[k].name)
    ensures ApplyEnv(entries, env).Success? ==> UniqueNames(ApplyEnv(entries, env).value)
    ensures ApplyEnv(entries, env).Success? ==>
              forall name: string :: (Clashes(ApplyEnv(entries, env).value, name) <==> Clashes(entries, name))
                                     && (Referenced(ApplyEnv(entries, env).value, name) <==> Referenced(entries, name))
  {
    hide SetEnv, Clashes, Referenced;
    if env != [] {
      var n := |env| - 1;
      ApplyEnvSucceeds(entries, env[..n]);
      assert forall k :: 0 <= k < n ==> env[..n][k] == env[k];
      if ApplyEnv(entries, env[..n]).Success? {
        var now := ApplyEnv(entries, env[..n]).value;
        SetEnvSucceeds(now, env[n]);
        if SetEnv(now, env[n]).Success? {
          forall name: string
            ensures Clashes(SetEnv(now, env[n]).value, name) <==> Clashes(entries, name)
            ensures Referenced(SetEnv(now, env[n]).value, name) <==> Referenced(entries, name)
          {
            SetEnvKeepsKinds(now, env[n], name);
          }
          SetEnvKeepsKinds(now, env[n], "");
        }
      }
    }
  }

  lemma SetSecretSucceeds(entries: seq<Value>, b: Binding)
    requires AllMaps(entries) && UniqueNames(entries)
    ensures SetSecret(entries, b).Success? <==> Referenced(entries, b.name)
  {
    var found := FindEntry(entries, b.name);
  }

  lemma SetSecretKeepsKinds(entries: seq<Value>, b: Binding, name: string)
    requires AllMaps(entries) && UniqueNames(entries) && SetSecret(entries, b).Success?
    ensures UniqueNames(SetSecret(entries, b).value)
    ensures Referenced(SetSecret(entries, b).value, name) <==> Referenced(entries, name)
  {
    var after := SetSecret(entries, b).value;
    var found := FindEntry(entries, b.name).value;
    ManifestFrame.WithSecretIs(entries[found], b.value);
    assert forall i :: 0 <= i < |entries| ==>
             Get(after[i], "name") == Get(entries[i], "name") && HasSecretRef(after[i]) == HasSecretRef(entries[i]);
    hide SetSecret, HasSecretRef;
    if i :| 0 <= i < |entries| && Get(entries[i], "name") == Str(name) && HasSecretRef(entries[i]) {
      assert Get(after[i], "name") == Str(name) && HasSecretRef(after[i]);
    }
  }

  lemma {:induction false} ApplySecretsSucceeds(entries: seq<Value>, secrets: seq<Binding>)
    requires AllMaps(entries) && UniqueNames(entries)
    ensures ApplySecrets(entries, secrets).Success? <==> forall k :: 0 <= k < |secrets| ==> Referenced(entries, secrets[k].name)
    ensures ApplySecrets(entries, secrets).Success? ==> UniqueNames(ApplySecrets(entries, secrets).value)
    ensures ApplySecrets(entries, secrets).Success? ==>
              forall name: string :: Referenced(ApplySecrets(entries, secrets).value, name) <==> Referenced(entries, name)
  {
    hide SetSecret, Referenced;
    if secrets != [] {
      var n := |secrets| - 1;
      ApplySecretsSucceeds(entries, secrets[..n]);
      assert forall k :: 0 <= k < n ==> secrets[..n][k] == secrets[k];
      if ApplySecrets(entries, secrets[..n]).Success? {
        var now := ApplySecrets(entries, secrets[..n]).value;
        SetSecretSucceeds(now, secrets[n]);
        if SetSecret(now, secrets[n]).Success? {
          forall name: string ensures Referenced(SetSecret(now, secrets[n]).value, name) <==> Referenced(entries, name) {
            SetSecretKeepsKinds(now, secrets[n], name);
          }
          SetSecretKeepsKinds(now, secrets[n], "");
        }
      }
    }
  }

  /** An overlay fits the entries exactly when its plain overrides clash with nothing and its secrets have references. */
  lemma FitsIff(entries: seq<Value>, o: Overrides)
    requires AllMaps(entries) && UniqueNames(entries)
    ensures EnvFits(entries, o) <==> Fits(entries, o)
  {
    ApplyEnvSucceeds(entries, o.env);
    if ApplyEnv(entries, o.env).Success? {
      ApplySecretsSucceeds(ApplyEnv(entries, o.env).value, o.secrets);
    }
    hide ApplyEnv, ApplySecrets;
    FitsByKinds(entries, o);
  }

  lemma FitsByKinds(entries: seq<Value>, o: Overrides)
    ensures Fits(entries, o) <==>
            && (forall k :: 0 <= k < |o.env| ==> !Clashes(entries, o.env[k].name))
            && (forall k :: 0 <= k < |o.secrets| ==> Referenced(entries, o.secrets[k].name))
  {
    forall i, name: string | 0 <= i < |entries|
      ensures NamedEntry(entries[i], name) <==> Get(entries[i], "name") == Str(name)
    {
      EntryShape(entries[i], name);
    }
    forall i | 0 <= i < |entries|
      ensures HasValueFrom(entries[i]) <==> Lookup(entries[i], ["valueFrom"]).Some?
      ensures HasSecretRef(entries[i]) <==> (&& Lookup(entries[i], ["valueFrom", "secretKeyRef"]).Some?
                                             && Lookup(entries[i], ["valueFrom", "secretKeyRef"]).value.Map?)
    {
      EntryShape(entries[i], "");
    }
    hide NamedEntry, HasValueFrom, HasSecretRef, Lookup, Get;
  }

  /** Everything that can keep an environment from rendering, whatever the values: a reader can check it on the files. */
  ghost predicate CanRender(base: Value, environment: Environment, entries: seq<Value>) {
    && base.Map? && HasEntries(base, entries)
    && MappingOrNothing(base, ["metadata"]) && MappingOrNothing(base, ["metadata", "labels"])
    && MappingOrNothing(base, ["spec", "template", "metadata"])
    && MappingOrNothing(base, ["spec", "template", "metadata", "annotations"])
    && OverridesWellFormed(environment.overrides) && Fits(entries, environment.overrides)
  }

  lemma ChildMappingSucceeds(v: Value, key: string)
    ensures ChildMapping(v, key).Success? <==> Get(v, key) == Null || Get(v, key).Map?
    ensures ChildMapping(v, key).Success? && Get(v, key) == Null ==> ChildMapping(v, key).value == Map(map[])
    ensures ChildMapping(v, key).Success? && Get(v, key).Map? ==> ChildMapping(v, key).value == Get(v, key)
  {
  }

  lemma MetadataSucceeds(base: Value, service: string)
    ensures RenderMetadata(base, service).Success? <==>
            MappingOrNothing(base, ["metadata"]) && MappingOrNothing(base, ["metadata", "labels"])
  {
    PathsAre(base);
    ChildMappingSucceeds(base, "metadata");
    if ChildMapping(base, "metadata").Success? {
      ChildMappingSucceeds(ChildMapping(base, "metadata").value, "labels");
    }
    hide Lookup;
  }

  lemma TemplateMetadataSucceeds(base: Value)
    ensures RenderTemplateMetadata(TemplateOf(base), []).Success? <==>
            && MappingOrNothing(base, ["spec", "template", "metadata"])
            && MappingOrNothing(base, ["spec", "template", "metadata", "annotations"])
  {
    PathsAre(base);
    ChildMappingSucceeds(TemplateOf(base), "metadata");
    if ChildMapping(TemplateOf(base), "metadata").Success? {
      ChildMappingSucceeds(ChildMapping(TemplateOf(base), "metadata").value, "annotations");
    }
    hide Lookup;
  }

  /** Rendering succeeds exactly when the files allow it, every placeholder has a value and the image is named. */
  lemma RenderSucceedsIff(base: Value, environment: Environment, image: string, variables: map<string, string>)
    ensures Render(base, environment, image, variables).Success? <==>
            && (exists entries: seq<Value> :: CanRender(base, environment, entries))
            && Mentioned(environment.overrides) <= variables.Keys && image != ""
  {
    RenderSucceeds(base, environment, image, variables);
    MetadataSucceeds(base, environment.service);
    TemplateMetadataSucceeds(base);
    hide Render, RenderMetadata, RenderTemplateMetadata, EnvFits, Fits, HasEntries, SingleContainer, MappingOrNothing,
         OverridesWellFormed, Mentioned;
    if SingleContainer(base).Success? {
      var entries := SingleContainer(base).value.1;
      SingleContainerIff(base, entries);
      FitsIff(entries, environment.overrides);
      assert Renderable(base, environment) ==> CanRender(base, environment, entries);
    }
    if entries: seq<Value> :| CanRender(base, environment, entries) {
      SingleContainerIff(base, entries);
      FitsIff(entries, environment.overrides);
    }
  }

  /** And so the condition that validation decides for each environment is this one, a matter of the files alone. */
  lemma ValidatedIff(base: Value, environment: Environment)
    ensures Renderable(base, environment) <==> exists entries: seq<Value> :: CanRender(base, environment, entries)
  {
    var variables := map name | name in Mentioned(environment.overrides) :: "";
    hide Render, Renderable, CanRender, Mentioned;
    RenderSucceeds(base, environment, "image", variables);
    RenderSucceedsIff(base, environment, "image", variables);
  }
}
