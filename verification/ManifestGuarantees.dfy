/** When rendering succeeds, and that validation with sentinels stands for every deploy. */
module ManifestGuarantees {
  import opened Common
  import opened Manifests
  import Templates

  /* ---------- success does not depend on the substituted values ---------- */

  /** Same entry names, and the same entries point at secrets. */
  ghost predicate SameShape(e: seq<Value>, f: seq<Value>) {
    && AllMaps(e) && AllMaps(f) && |e| == |f|
    && forall i :: 0 <= i < |e| ==>
         && Get(e[i], "name") == Get(f[i], "name")
         && HasValueFrom(e[i]) == HasValueFrom(f[i])
         && HasSecretRef(e[i]) == HasSecretRef(f[i])
  }

  ghost predicate SameNames(b: seq<Binding>, c: seq<Binding>) {
    |b| == |c| && forall i :: 0 <= i < |b| ==> b[i].name == c[i].name
  }

  lemma {:induction false} FindEntryShape(e: seq<Value>, f: seq<Value>, name: string)
    requires SameShape(e, f)
    ensures FindEntry(e, name) == FindEntry(f, name)
  {
    if e != [] {
      FindEntryShape(e[1..], f[1..], name);
    }
  }

  lemma SetEnvShape(e: seq<Value>, f: seq<Value>, b: Binding, c: Binding)
    requires SameShape(e, f) && b.name == c.name
    ensures SetEnv(e, b).Success? == SetEnv(f, c).Success?
    ensures SetEnv(e, b).Success? ==> SameShape(SetEnv(e, b).value, SetEnv(f, c).value)
  {
    FindEntryShape(e, f, b.name);
  }

  lemma SetSecretShape(e: seq<Value>, f: seq<Value>, b: Binding, c: Binding)
    requires SameShape(e, f) && b.name == c.name
    ensures SetSecret(e, b).Success? == SetSecret(f, c).Success?
    ensures SetSecret(e, b).Success? ==> SameShape(SetSecret(e, b).value, SetSecret(f, c).value)
  {
    FindEntryShape(e, f, b.name);
  }

  lemma {:induction false} ApplyEnvShape(e: seq<Value>, f: seq<Value>, b: seq<Binding>, c: seq<Binding>)
    requires SameShape(e, f) && SameNames(b, c)
    ensures ApplyEnv(e, b).Success? == ApplyEnv(f, c).Success?
    ensures ApplyEnv(e, b).Success? ==> SameShape(ApplyEnv(e, b).value, ApplyEnv(f, c).value)
  {
    if b != [] {
      var n := |b| - 1;
      ApplyEnvShape(e, f, b[..n], c[..n]);
      if ApplyEnv(e, b[..n]).Success? {
        SetEnvShape(ApplyEnv(e, b[..n]).value, ApplyEnv(f, c[..n]).value, b[n], c[n]);
      }
    }
  }

  lemma {:induction false} ApplySecretsShape(e: seq<Value>, f: seq<Value>, b: seq<Binding>, c: seq<Binding>)
    requires SameShape(e, f) && SameNames(b, c)
    ensures ApplySecrets(e, b).Success? == ApplySecrets(f, c).Success?
    ensures ApplySecrets(e, b).Success? ==> SameShape(ApplySecrets(e, b).value, ApplySecrets(f, c).value)
  {
    if b != [] {
      var n := |b| - 1;
      ApplySecretsShape(e, f, b[..n], c[..n]);
      if ApplySecrets(e, b[..n]).Success? {
        SetSecretShape(ApplySecrets(e, b[..n]).value, ApplySecrets(f, c[..n]).value, b[n], c[n]);
      }
    }
  }

  /* ---------- which variables an overlay needs ---------- */

  predicate BindingsWellFormed(bindings: seq<Binding>) {
    forall i :: 0 <= i < |bindings| ==> Templates.WellFormed(bindings[i].value)
  }

  function MentionedIn(bindings: seq<Binding>): set<string> {
    if bindings == [] then {} else Templates.Identifiers(bindings[0].value) + MentionedIn(bindings[1..])
  }

  predicate OverridesWellFormed(o: Overrides) {
    && BindingsWellFormed(o.env) && BindingsWellFormed(o.secrets) && BindingsWellFormed(o.annotations)
    && (o.serviceAccount.Some? ==> Templates.WellFormed(o.serviceAccount.value))
  }

  /** Every placeholder name an overlay uses. */
  function Mentioned(o: Overrides): set<string> {
    MentionedIn(o.env) + MentionedIn(o.secrets) + MentionedIn(o.annotations)
    + if o.serviceAccount.Some? then Templates.Identifiers(o.serviceAccount.value) else {}
  }

  lemma {:induction false} FillBindingsSucceeds(bindings: seq<Binding>, variables: map<string, string>)
    ensures FillBindings(bindings, variables).Success? <==>
            BindingsWellFormed(bindings) && MentionedIn(bindings) <= variables.Keys
    ensures FillBindings(bindings, variables).Success? ==> SameNames(bindings, FillBindings(bindings, variables).value)
  {
    if bindings != [] {
      Templates.SubstituteSucceeds(bindings[0].value, variables);
      FillBindingsSucceeds(bindings[1..], variables);
      assert BindingsWellFormed(bindings) <==> Templates.WellFormed(bindings[0].value) && BindingsWellFormed(bindings[1..]) by {
        assert forall i :: 1 <= i < |bindings| ==> bindings[i] == bindings[1..][i - 1];
      }
    }
  }

  lemma SubstituteOverridesSucceeds(o: Overrides, variables: map<string, string>)
    ensures SubstituteOverrides(o, variables).Success? <==> OverridesWellFormed(o) && Mentioned(o) <= variables.Keys
    ensures SubstituteOverrides(o, variables).Success? ==>
              (var filled := SubstituteOverrides(o, variables).value;
               && SameNames(o.env, filled.env) && SameNames(o.secrets, filled.secrets)
               && SameNames(o.annotations, filled.annotations)
               && o.serviceAccount.Some? == filled.serviceAccount.Some?)
  {
    FillBindingsSucceeds(o.env, variables);
    FillBindingsSucceeds(o.secrets, variables);
    FillBindingsSucceeds(o.annotations, variables);
    if o.serviceAccount.Some? {
      Templates.SubstituteSucceeds(o.serviceAccount.value, variables);
    }
  }

  /* ---------- when rendering succeeds ---------- */

  /** The overlay fits the entries: no plain value over a secret, no secret without a reference. */
  predicate EnvFits(entries: seq<Value>, o: Overrides)
    requires AllMaps(entries)
  {
    ApplyEnv(entries, o.env).Success? && ApplySecrets(ApplyEnv(entries, o.env).value, o.secrets).Success?
  }

  /** What the base and the overlay must satisfy; neither the image nor any substituted value occurs here. */
  predicate Renderable(base: Value, environment: Environment) {
    && base.Map?
    && SingleContainer(base).Success?
    && OverridesWellFormed(environment.overrides)
    && RenderMetadata(base, environment.service).Success?
    && RenderTemplateMetadata(TemplateOf(base), []).Success?
    && EnvFits(SingleContainer(base).value.1, environment.overrides)
  }

  lemma EnvFitsByNames(entries: seq<Value>, o: Overrides, p: Overrides)
    requires AllMaps(entries) && SameNames(o.env, p.env) && SameNames(o.secrets, p.secrets)
    ensures EnvFits(entries, o) == EnvFits(entries, p)
  {
    ApplyEnvShape(entries, entries, o.env, p.env);
    if ApplyEnv(entries, o.env).Success? {
      ApplySecretsShape(ApplyEnv(entries, o.env).value, ApplyEnv(entries, p.env).value, o.secrets, p.secrets);
    }
  }

  /** Rendering succeeds exactly when the overlay fits, every placeholder has a value and the image is named. */
  lemma RenderSucceeds(base: Value, environment: Environment, image: string, variables: map<string, string>)
    ensures Render(base, environment, image, variables).Success? <==>
            Renderable(base, environment) && Mentioned(environment.overrides) <= variables.Keys && image != ""
  {
    var o := environment.overrides;
    SubstituteOverridesSucceeds(o, variables);
    if base.Map? && SingleContainer(base).Success? && SubstituteOverrides(o, variables).Success? {
      var (container, entries) := SingleContainer(base).value;
      EnvFitsByNames(entries, o, SubstituteOverrides(o, variables).value);
    }
  }

  /* ---------- validation ---------- */

  const PLACEHOLDER_SENTINEL := "validate-placeholder"
  const IMAGE_SENTINEL := "validate.invalid/image@sha256:0000000000000000000000000000000000000000000000000000000000000000"

  function PlaceholderNames(environments: seq<Environment>): set<string> {
    if environments == [] then {} else Mentioned(environments[0].overrides) + PlaceholderNames(environments[1..])
  }

  function Sentinels(names: set<string>): map<string, string> {
    map name | name in names :: PLACEHOLDER_SENTINEL
  }

  /** A name is collected exactly when some environment's overlay mentions it. */
  lemma {:induction false} CollectedIffMentioned(environments: seq<Environment>, name: string)
    ensures name in PlaceholderNames(environments) <==>
            exists i :: 0 <= i < |environments| && name in Mentioned(environments[i].overrides)
  {
    hide Mentioned;
    if environments != [] {
      var rest := environments[1..];
      CollectedIffMentioned(rest, name);
      assert forall i :: 0 <= i < |rest| ==> rest[i] == environments[i + 1];
      assert forall i :: 0 < i < |environments| ==> environments[i] == rest[i - 1];
    }
  }

  /** Collect the names overlay by overlay. */
  method CollectPlaceholderNames(environments: seq<Environment>) returns (names: set<string>)
    ensures names == PlaceholderNames(environments)
  {
    hide Mentioned;
    names := {};
    for i := 0 to |environments|
      invariant names + PlaceholderNames(environments[i..]) == PlaceholderNames(environments)
    {
      assert environments[i..][1..] == environments[i + 1..];
      names := names + Mentioned(environments[i].overrides);
    }
  }

  /** Render one environment with the sentinels. */
  method CheckOne(environments: seq<Environment>, i: nat, base: Value, variables: map<string, string>)
    returns (error: Option<ConfigError>)
    requires i < |environments| && variables == Sentinels(PlaceholderNames(environments))
    ensures error.None? <==> Renderable(base, environments[i])
  {
    MentionedInRegistry(environments, i);
    RenderSucceeds(base, environments[i], IMAGE_SENTINEL, variables);
    var rendered := Render(base, environments[i], IMAGE_SENTINEL, variables);
    return if rendered.Success? then None else Some(rendered.error);
  }

  /** Render every environment offline with a sentinel for every placeholder of the registry. */
  method ValidateRegistry(environments: seq<Environment>, base: Value) returns (r: Result<seq<string>, ConfigError>)
    ensures r.Success? <==> forall i :: 0 <= i < |environments| ==> Renderable(base, environments[i])
    ensures r.Success? ==> |r.value| == |environments| && forall i :: 0 <= i < |environments| ==> r.value[i] == environments[i].name
  {
    hide Renderable, Sentinels, PlaceholderNames;
    var names := CollectPlaceholderNames(environments);
    var variables := Sentinels(names);
    var checked: seq<string> := [];
    for i := 0 to |environments|
      invariant forall j :: 0 <= j < i ==> Renderable(base, environments[j])
      invariant |checked| == i && forall j :: 0 <= j < i ==> checked[j] == environments[j].name
    {
      var error := CheckOne(environments, i, base, variables);
      if error.Some? {
        return Failure(error.value);
      }
      checked := checked + [environments[i].name];
    }
    return Success(checked);
  }

  lemma {:induction false} MentionedInRegistry(environments: seq<Environment>, i: nat)
    requires i < |environments|
    ensures Mentioned(environments[i].overrides) <= PlaceholderNames(environments)
  {
    if i > 0 {
      MentionedInRegistry(environments[1..], i - 1);
    }
  }

  /**
   Validation stands for every deploy: an environment that renders with the sentinels renders with every
   image and every variable map that covers its own placeholders; one that does not never renders at all.
   */
  lemma ValidationStandsForAllValues(environments: seq<Environment>, base: Value, i: nat, image: string, variables: map<string, string>)
    requires i < |environments|
    ensures Render(base, environments[i], IMAGE_SENTINEL, Sentinels(PlaceholderNames(environments))).Success?
            && image != "" && Mentioned(environments[i].overrides) <= variables.Keys
            ==> Render(base, environments[i], image, variables).Success?
    ensures Render(base, environments[i], IMAGE_SENTINEL, Sentinels(PlaceholderNames(environments))).Failure?
            ==> Render(base, environments[i], image, variables).Failure?
  {
    MentionedInRegistry(environments, i);
    assert Sentinels(PlaceholderNames(environments)).Keys == PlaceholderNames(environments) && IMAGE_SENTINEL != "";
    hide Render, Renderable, Mentioned, PlaceholderNames, Sentinels;
    RenderSucceeds(base, environments[i], IMAGE_SENTINEL, Sentinels(PlaceholderNames(environments)));
    RenderSucceeds(base, environments[i], image, variables);
  }
}
