/** What rendering changes, what it leaves alone, and that rendering its own output changes nothing more. */
module ManifestFrame {
  import opened Common
  import opened Manifests
  import ManifestGuarantees

  /* ---------- the env entries ---------- */

  predicate IsNamed(entry: Value, name: string) {
    Get(entry, "name") == Str(name)
  }

  /** Names are unique, so an entry with the right name is the one found. */
  lemma FindEntryIs(entries: seq<Value>, name: string, i: nat)
    requires UniqueNames(entries) && i < |entries| && IsNamed(entries[i], name)
    ensures FindEntry(entries, name) == Some(i)
  {
  }

  /** The entry is the same, or it is a plain one whose name is bound and only its value differs. */
  ghost predicate PlainEdit(before: Value, after: Value, env: seq<Binding>) {
    || after == before
    || (&& before.Map? && after.Map? && !HasValueFrom(before)
        && before.fields - {"value"} == after.fields - {"value"}
        && exists k :: 0 <= k < |env| && IsNamed(before, env[k].name))
  }

  ghost predicate NewEntry(entry: Value, env: seq<Binding>) {
    exists k :: 0 <= k < |env| && entry == PlainEntry(env[k].name, env[k].value)
  }

  /** The entry is the same, or its name is bound and only the name of the secret it points at differs. */
  ghost predicate SecretEdit(before: Value, after: Value, secrets: seq<Binding>) {
    || after == before
    || (&& HasSecretRef(before) && HasSecretRef(after)
        && before.fields - {"valueFrom"} == after.fields - {"valueFrom"}
        && Get(before, "valueFrom").fields - {"secretKeyRef"} == Get(after, "valueFrom").fields - {"secretKeyRef"}
        && SecretRef(before).fields - {"name"} == SecretRef(after).fields - {"name"}
        && exists k :: 0 <= k < |secrets| && IsNamed(before, secrets[k].name))
  }

  function SecretRef(entry: Value): Value {
    Get(Get(entry, "valueFrom"), "secretKeyRef")
  }

  /** A plain override is in force at position `i`: the entry of that name has exactly that value. */
  predicate EnvInForce(entries: seq<Value>, b: Binding, i: nat) {
    i < |entries| && IsNamed(entries[i], b.name) && Get(entries[i], "value") == Str(b.value) && !HasValueFrom(entries[i])
  }

  predicate SecretInForce(entries: seq<Value>, b: Binding, i: nat) {
    i < |entries| && IsNamed(entries[i], b.name) && HasSecretRef(entries[i])
    && Get(SecretRef(entries[i]), "name") == Str(b.value)
  }

  /** What the plain overrides did to the entries. */
  ghost predicate EnvStage(before: seq<Value>, after: seq<Value>, env: seq<Binding>) {
    && |before| <= |after| && AllMaps(after) && UniqueNames(after)
    && (forall i :: 0 <= i < |before| ==> PlainEdit(before[i], after[i], env))
    && (forall i :: |before| <= i < |after| ==> NewEntry(after[i], env))
  }

  ghost predicate EnvHolds(entries: seq<Value>, b: Binding) {
    exists i :: 0 <= i < |entries| && EnvInForce(entries, b, i)
  }

  ghost predicate SecretHolds(entries: seq<Value>, b: Binding) {
    exists i :: 0 <= i < |entries| && SecretInForce(entries, b, i)
  }

  ghost predicate AllEnvInForce(entries: seq<Value>, env: seq<Binding>) {
    forall k :: 0 <= k < |env| ==> EnvHolds(entries, env[k])
  }

  ghost predicate AllSecretsInForce(entries: seq<Value>, secrets: seq<Binding>) {
    forall k :: 0 <= k < |secrets| ==> SecretHolds(entries, secrets[k])
  }

  lemma PlainEditMore(before: Value, after: Value, env: seq<Binding>, b: Binding)
    requires PlainEdit(before, after, env)
    ensures PlainEdit(before, after, env + [b])
  {
    if after != before {
      var k :| 0 <= k < |env| && IsNamed(before, env[k].name);
      assert (env + [b])[k] == env[k];
    }
  }

  lemma PlainEditNow(before: Value, now: Value, env: seq<Binding>, b: Binding)
    requires PlainEdit(before, now, env) && now.Map? && IsNamed(now, b.name) && !HasValueFrom(now)
    ensures PlainEdit(before, Put(now, "value", Str(b.value)), env + [b])
  {
    var after := Put(now, "value", Str(b.value));
    assert (env + [b])[|env|] == b;
    assert after.fields - {"value"} == now.fields - {"value"};
    if now != before {
      assert "name" in before.fields - {"value"} <==> "name" in now.fields - {"value"};
      assert IsNamed(before, b.name);
    }
  }

  lemma NewEntryMore(entry: Value, env: seq<Binding>, b: Binding)
    requires NewEntry(entry, env)
    ensures NewEntry(entry, env + [b])
  {
    var k :| 0 <= k < |env| && entry == PlainEntry(env[k].name, env[k].value);
    assert (env + [b])[k] == env[k];
  }

  lemma SetEnvStage(before: seq<Value>, now: seq<Value>, env: seq<Binding>, b: Binding)
    requires EnvStage(before, now, env) && SetEnv(now, b).Success?
    requires DistinctNames(env + [b])
    ensures EnvStage(before, SetEnv(now, b).value, env + [b])
  {
    var after := SetEnv(now, b).value;
    var found := FindEntry(now, b.name);
    assert (env + [b])[|env|] == b;
    forall i | 0 <= i < |before| ensures PlainEdit(before[i], after[i], env + [b]) {
      if found == Some(i) {
        PlainEditNow(before[i], now[i], env, b);
      } else {
        PlainEditMore(before[i], now[i], env, b);
      }
    }
    forall i | |before| <= i < |after| ensures NewEntry(after[i], env + [b]) {
      if i == |now| {
        assert after[i] == PlainEntry((env + [b])[|env|].name, (env + [b])[|env|].value);
      } else {
        NewEntryMore(now[i], env, b);
        var k :| 0 <= k < |env| && now[i] == PlainEntry(env[k].name, env[k].value);
        assert (env + [b])[k].name != (env + [b])[|env|].name;
      }
    }
  }

  lemma SetEnvForce(now: seq<Value>, env: seq<Binding>, b: Binding)
    requires AllMaps(now) && AllEnvInForce(now, env) && SetEnv(now, b).Success? && DistinctNames(env + [b])
    ensures AllEnvInForce(SetEnv(now, b).value, env + [b])
  {
    var after := SetEnv(now, b).value;
    forall k | 0 <= k < |env + [b]| ensures EnvHolds(after, (env + [b])[k]) {
      if k < |env| {
        assert EnvHolds(now, env[k]);
        var i :| 0 <= i < |now| && EnvInForce(now, env[k], i);
        assert (env + [b])[k].name != (env + [b])[|env|].name;
        assert EnvInForce(after, (env + [b])[k], i);
      } else {
        var found := FindEntry(now, b.name);
        var i := if found.Some? then found.value else |now|;
        assert (env + [b])[k] == b && EnvInForce(after, b, i);
      }
    }
  }

  /** The plain overrides: each in force afterwards, nothing else about the entries changed. */
  lemma {:induction false} ApplyEnvStage(entries: seq<Value>, env: seq<Binding>)
    requires AllMaps(entries) && UniqueNames(entries) && DistinctNames(env) && ApplyEnv(entries, env).Success?
    ensures EnvStage(entries, ApplyEnv(entries, env).value, env)
    ensures AllEnvInForce(ApplyEnv(entries, env).value, env)
  {
    if env != [] {
      var n := |env| - 1;
      assert env == env[..n] + [env[n]];
      ApplyEnvStage(entries, env[..n]);
      var now := ApplyEnv(entries, env[..n]).value;
      SetEnvStage(entries, now, env[..n], env[n]);
      SetEnvForce(now, env[..n], env[n]);
    }
  }

  /* ---------- the secret overrides ---------- */

  /** What the secret overrides did to the entries. */
  ghost predicate SecretStage(before: seq<Value>, after: seq<Value>, secrets: seq<Binding>) {
    && |before| == |after| && AllMaps(after) && UniqueNames(after)
    && (forall i :: 0 <= i < |before| ==> SecretEdit(before[i], after[i], secrets))
  }

  lemma SecretEditMore(before: Value, after: Value, secrets: seq<Binding>, b: Binding)
    requires SecretEdit(before, after, secrets)
    ensures SecretEdit(before, after, secrets + [b])
  {
    if after != before {
      var k :| 0 <= k < |secrets| && IsNamed(before, secrets[k].name);
      assert (secrets + [b])[k] == secrets[k];
    }
  }

  lemma WithSecretIs(entry: Value, secret: string)
    requires entry.Map? && HasSecretRef(entry)
    ensures var after := WithSecret(entry, secret);
            && after.Map? && HasSecretRef(after) && HasValueFrom(after)
            && after.fields - {"valueFrom"} == entry.fields - {"valueFrom"}
            && Get(after, "valueFrom").fields - {"secretKeyRef"} == Get(entry, "valueFrom").fields - {"secretKeyRef"}
            && SecretRef(after).fields - {"name"} == SecretRef(entry).fields - {"name"}
            && Get(SecretRef(after), "name") == Str(secret)
            && Get(after, "name") == Get(entry, "name")
  {
    var after := WithSecret(entry, secret);
    assert Get(after, "valueFrom") == Put(Get(entry, "valueFrom"), "secretKeyRef", Put(SecretRef(entry), "name", Str(secret)));
  }

  lemma SecretEditNow(before: Value, now: Value, secrets: seq<Binding>, b: Binding)
    requires SecretEdit(before, now, secrets) && now.Map? && IsNamed(now, b.name) && HasSecretRef(now)
    ensures SecretEdit(before, WithSecret(now, b.value), secrets + [b])
  {
    WithSecretIs(now, b.value);
    assert (secrets + [b])[|secrets|] == b;
    assert "name" in before.fields - {"valueFrom"} <==> "name" in now.fields - {"valueFrom"};
    assert IsNamed(before, b.name);
  }

  lemma SetSecretStage(before: seq<Value>, now: seq<Value>, secrets: seq<Binding>, b: Binding)
    requires SecretStage(before, now, secrets) && AllMaps(before) && SetSecret(now, b).Success?
    ensures SecretStage(before, SetSecret(now, b).value, secrets + [b])
  {
    var after := SetSecret(now, b).value;
    var found := FindEntry(now, b.name).value;
    WithSecretIs(now[found], b.value);
    forall i | 0 <= i < |before| ensures SecretEdit(before[i], after[i], secrets + [b]) {
      if i == found {
        SecretEditNow(before[i], now[i], secrets, b);
      } else {
        SecretEditMore(before[i], now[i], secrets, b);
      }
    }
  }

  lemma SetSecretForce(now: seq<Value>, secrets: seq<Binding>, b: Binding)
    requires AllMaps(now) && AllSecretsInForce(now, secrets) && SetSecret(now, b).Success? && DistinctNames(secrets + [b])
    ensures AllSecretsInForce(SetSecret(now, b).value, secrets + [b])
  {
    var after := SetSecret(now, b).value;
    var found := FindEntry(now, b.name).value;
    WithSecretIs(now[found], b.value);
    forall k | 0 <= k < |secrets + [b]| ensures SecretHolds(after, (secrets + [b])[k]) {
      if k < |secrets| {
        assert SecretHolds(now, secrets[k]);
        var i :| 0 <= i < |now| && SecretInForce(now, secrets[k], i);
        assert (secrets + [b])[k].name != (secrets + [b])[|secrets|].name;
        assert SecretInForce(after, (secrets + [b])[k], i);
      } else {
        assert (secrets + [b])[k] == b && SecretInForce(after, b, found);
      }
    }
  }

  /** The secret overrides: each in force afterwards, nothing else about the entries changed. */
  lemma {:induction false} ApplySecretsStage(entries: seq<Value>, secrets: seq<Binding>)
    requires AllMaps(entries) && UniqueNames(entries) && DistinctNames(secrets) && ApplySecrets(entries, secrets).Success?
    ensures SecretStage(entries, ApplySecrets(entries, secrets).value, secrets)
    ensures AllSecretsInForce(ApplySecrets(entries, secrets).value, secrets)
  {
    if secrets != [] {
      var n := |secrets| - 1;
      assert secrets == secrets[..n] + [secrets[n]];
      ApplySecretsStage(entries, secrets[..n]);
      var now := ApplySecrets(entries, secrets[..n]).value;
      SetSecretStage(entries, now, secrets[..n], secrets[n]);
      SetSecretForce(now, secrets[..n], secrets[n]);
    }
  }

  /** Re-pointing secrets disturbs no plain override. */
  lemma SecretStageKeepsEnv(before: seq<Value>, after: seq<Value>, env: seq<Binding>, secrets: seq<Binding>)
    requires SecretStage(before, after, secrets) && AllEnvInForce(before, env)
    ensures AllEnvInForce(after, env)
  {
    forall k | 0 <= k < |env| ensures EnvHolds(after, env[k]) {
      assert EnvHolds(before, env[k]);
      var i :| 0 <= i < |before| && EnvInForce(before, env[k], i);
      assert SecretEdit(before[i], after[i], secrets);
      assert EnvInForce(after, env[k], i);
    }
  }

  /* ---------- applying an overlay that is already in force ---------- */

  lemma PutSame(v: Value, key: string)
    requires v.Map? && key in v.fields
    ensures Put(v, key, v.fields[key]) == v
  {
  }

  lemma SetEnvAgain(entries: seq<Value>, b: Binding)
    requires AllMaps(entries) && UniqueNames(entries) && EnvHolds(entries, b)
    ensures SetEnv(entries, b) == Success(entries)
  {
    var i :| 0 <= i < |entries| && EnvInForce(entries, b, i);
    FindEntryIs(entries, b.name, i);
    PutSame(entries[i], "value");
    assert entries[i := entries[i]] == entries;
  }

  lemma SetSecretAgain(entries: seq<Value>, b: Binding)
    requires AllMaps(entries) && UniqueNames(entries) && SecretHolds(entries, b)
    ensures SetSecret(entries, b) == Success(entries)
  {
    var i :| 0 <= i < |entries| && SecretInForce(entries, b, i);
    FindEntryIs(entries, b.name, i);
    PutSame(SecretRef(entries[i]), "name");
    PutSame(Get(entries[i], "valueFrom"), "secretKeyRef");
    PutSame(entries[i], "valueFrom");
    assert WithSecret(entries[i], b.value) == entries[i];
    assert entries[i := entries[i]] == entries;
  }

  lemma {:induction false} ApplyEnvAgain(entries: seq<Value>, env: seq<Binding>)
    requires AllMaps(entries) && UniqueNames(entries) && AllEnvInForce(entries, env)
    ensures ApplyEnv(entries, env) == Success(entries)
  {
    if env != [] {
      var n := |env| - 1;
      ApplyEnvAgain(entries, env[..n]);
      SetEnvAgain(entries, env[n]);
    }
  }

  lemma {:induction false} ApplySecretsAgain(entries: seq<Value>, secrets: seq<Binding>)
    requires AllMaps(entries) && UniqueNames(entries) && AllSecretsInForce(entries, secrets)
    ensures ApplySecrets(entries, secrets) == Success(entries)
  {
    if secrets != [] {
      var n := |secrets| - 1;
      ApplySecretsAgain(entries, secrets[..n]);
      SetSecretAgain(entries, secrets[n]);
    }
  }

  /* ---------- annotations ---------- */

  lemma {:induction false} PutAllSets(v: Value, bindings: seq<Binding>, k: nat)
    requires v.Map? && DistinctNames(bindings) && k < |bindings|
    ensures Get(PutAll(v, bindings), bindings[k].name) == Str(bindings[k].value)
  {
    var n := |bindings| - 1;
    if k < n {
      PutAllSets(v, bindings[..n], k);
      assert bindings[k].name != bindings[n].name;
    }
  }

  lemma {:induction false} PutAllKeeps(v: Value, bindings: seq<Binding>, key: string)
    requires v.Map? && key !in Names(bindings)
    ensures key in PutAll(v, bindings).fields <==> key in v.fields
    ensures Get(PutAll(v, bindings), key) == Get(v, key)
  {
    if bindings != [] {
      var n := |bindings| - 1;
      assert bindings[n].name in Names(bindings);
      assert forall k :: 0 <= k < n ==> bindings[k].name in Names(bindings);
      PutAllKeeps(v, bindings[..n], key);
    }
  }

  lemma PutAllIs(v: Value, bindings: seq<Binding>)
    requires v.Map? && DistinctNames(bindings)
    ensures forall k :: 0 <= k < |bindings| ==> Get(PutAll(v, bindings), bindings[k].name) == Str(bindings[k].value)
    ensures SameExcept(v, PutAll(v, bindings), Names(bindings))
  {
    forall k | 0 <= k < |bindings|
      ensures Get(PutAll(v, bindings), bindings[k].name) == Str(bindings[k].value)
    {
      PutAllSets(v, bindings, k);
    }
    forall key | key !in Names(bindings)
      ensures key in PutAll(v, bindings).fields <==> key in v.fields
      ensures Get(PutAll(v, bindings), key) == Get(v, key)
    {
      PutAllKeeps(v, bindings, key);
    }
  }

  lemma {:induction false} PutAllAgain(v: Value, bindings: seq<Binding>)
    requires v.Map? && forall k :: 0 <= k < |bindings| ==>
               bindings[k].name in v.fields && v.fields[bindings[k].name] == Str(bindings[k].value)
    ensures PutAll(v, bindings) == v
  {
    if bindings != [] {
      var n := |bindings| - 1;
      PutAllAgain(v, bindings[..n]);
      PutSame(v, bindings[n].name);
    }
  }

  /* ---------- the whole manifest ---------- */

  function Fields(v: Value): map<string, Value> {
    if v.Map? then v.fields else map[]
  }

  /** The two mappings agree outside `keys`; a missing or null mapping counts as empty. */
  predicate SameExcept(before: Value, after: Value, keys: set<string>) {
    Fields(before) - keys == Fields(after) - keys
  }

  function ContainerOf(manifest: Value): Value {
    if ContainersOf(manifest).List? && |ContainersOf(manifest).items| == 1 then ContainersOf(manifest).items[0] else Null
  }

  function AnnotationsOf(manifest: Value): Value {
    Get(Get(TemplateOf(manifest), "metadata"), "annotations")
  }

  function LabelsOf(manifest: Value): Value {
    Get(Get(manifest, "metadata"), "labels")
  }

  function Names(bindings: seq<Binding>): set<string> {
    set k | 0 <= k < |bindings| :: bindings[k].name
  }

  /** Everything the overlay may not touch is as in the base, level by level down to the container. */
  predicate Framed(base: Value, out: Value, o: Overrides) {
    && SameExcept(base, out, {"metadata", "spec"})
    && SameExcept(Get(base, "metadata"), Get(out, "metadata"), {"name", "labels"})
    && SameExcept(LabelsOf(base), LabelsOf(out), {"app"})
    && SameExcept(Get(base, "spec"), Get(out, "spec"), {"template"})
    && SameExcept(TemplateOf(base), TemplateOf(out), {"metadata", "spec"})
    && SameExcept(Get(TemplateOf(base), "metadata"), Get(TemplateOf(out), "metadata"), {"annotations"})
    && SameExcept(AnnotationsOf(base), AnnotationsOf(out), Names(o.annotations))
    && SameExcept(TemplateSpecOf(base), TemplateSpecOf(out),
                  {"containers"} + if o.serviceAccount.Some? then {"serviceAccountName"} else {})
    && SameExcept(ContainerOf(base), ContainerOf(out), {"env", "image"})
  }

  /** What the rendered manifest says. */
  ghost predicate InForce(out: Value, service: string, image: string, o: Overrides) {
    && out.Map? && SingleContainer(out).Success?
    && Get(Get(out, "metadata"), "name") == Str(service)
    && Get(LabelsOf(out), "app") == Str(service)
    && Get(TemplateOf(out), "metadata").Map? && AnnotationsOf(out).Map?
    && (forall k :: 0 <= k < |o.annotations| ==> Get(AnnotationsOf(out), o.annotations[k].name) == Str(o.annotations[k].value))
    && (o.serviceAccount.Some? ==> Get(TemplateSpecOf(out), "serviceAccountName") == Str(o.serviceAccount.value))
    && Get(ContainerOf(out), "image") == Str(image) && image != ""
    && Get(ContainerOf(out), "env").List?
    && AllEnvInForce(SingleContainer(out).value.1, o.env)
    && AllSecretsInForce(SingleContainer(out).value.1, o.secrets)
  }

  lemma AssembleIs(base: Value, metadata: Value, templateMetadata: Value, templateSpec: Value)
    requires base.Map? && TemplateOf(base).Map?
    ensures var out := Assemble(base, metadata, templateMetadata, templateSpec);
            && out.Map? && Get(out, "spec").Map? && TemplateOf(out).Map?
            && Get(out, "metadata") == metadata
            && Get(TemplateOf(out), "metadata") == templateMetadata
            && TemplateSpecOf(out) == templateSpec
            && SameExcept(base, out, {"metadata", "spec"})
            && SameExcept(Get(base, "spec"), Get(out, "spec"), {"template"})
            && SameExcept(TemplateOf(base), TemplateOf(out), {"metadata", "spec"})
  {
    var out := Assemble(base, metadata, templateMetadata, templateSpec);
    var template := Put(Put(TemplateOf(base), "metadata", templateMetadata), "spec", templateSpec);
    assert Get(out, "spec") == Put(Get(base, "spec"), "template", template);
    assert TemplateOf(out) == template;
  }

  lemma RenderMetadataIs(base: Value, service: string)
    requires base.Map? && RenderMetadata(base, service).Success?
    ensures var m := RenderMetadata(base, service).value;
            && m.Map? && Get(m, "name") == Str(service) && Get(Get(m, "labels"), "app") == Str(service)
            && SameExcept(Get(base, "metadata"), m, {"name", "labels"})
            && SameExcept(LabelsOf(base), Get(m, "labels"), {"app"})
  {
    var metadata := ChildMapping(base, "metadata").value;
    var labels := ChildMapping(metadata, "labels").value;
    assert Fields(LabelsOf(base)) == Fields(labels);
  }

  lemma RenderTemplateMetadataIs(base: Value, bindings: seq<Binding>)
    requires RenderTemplateMetadata(TemplateOf(base), bindings).Success? && DistinctNames(bindings)
    ensures var m := RenderTemplateMetadata(TemplateOf(base), bindings).value;
            && m.Map? && Get(m, "annotations").Map?
            && (forall k :: 0 <= k < |bindings| ==> Get(Get(m, "annotations"), bindings[k].name) == Str(bindings[k].value))
            && SameExcept(Get(TemplateOf(base), "metadata"), m, {"annotations"})
            && SameExcept(AnnotationsOf(base), Get(m, "annotations"), Names(bindings))
  {
    var metadata := ChildMapping(TemplateOf(base), "metadata").value;
    var annotations := ChildMapping(metadata, "annotations").value;
    PutAllIs(annotations, bindings);
    assert Fields(AnnotationsOf(base)) == Fields(annotations);
  }

  /** Both kinds of overrides applied one after the other. */
  lemma EntriesStages(entries: seq<Value>, o: Overrides)
    requires AllMaps(entries) && UniqueNames(entries) && OverridesOk(o)
    requires ApplyEnv(entries, o.env).Success? && ApplySecrets(ApplyEnv(entries, o.env).value, o.secrets).Success?
    ensures var plain := ApplyEnv(entries, o.env).value;
            var all := ApplySecrets(plain, o.secrets).value;
            && EnvStage(entries, plain, o.env) && SecretStage(plain, all, o.secrets)
            && AllEnvInForce(all, o.env) && AllSecretsInForce(all, o.secrets)
            && UniqueNames(all)
  {
    ApplyEnvStage(entries, o.env);
    var plain := ApplyEnv(entries, o.env).value;
    ApplySecretsStage(plain, o.secrets);
    SecretStageKeepsEnv(plain, ApplySecrets(plain, o.secrets).value, o.env, o.secrets);
  }

  lemma RenderContainerIs(container: Value, entries: seq<Value>, o: Overrides, image: string)
    requires container.Map? && AllMaps(entries) && RenderContainer(container, entries, o, image).Success?
    ensures ApplyEnv(entries, o.env).Success? && ApplySecrets(ApplyEnv(entries, o.env).value, o.secrets).Success?
    ensures var c := RenderContainer(container, entries, o, image).value;
            && c.Map? && Get(c, "image") == Str(image) && image != ""
            && Get(c, "env") == List(ApplySecrets(ApplyEnv(entries, o.env).value, o.secrets).value)
            && SameExcept(container, c, {"env", "image"})
  {
  }

  lemma RenderTemplateSpecIs(spec: Value, container: Value, account: Option<string>)
    requires spec.Map?
    ensures var s := RenderTemplateSpec(spec, container, account);
            && s.Map? && Get(s, "containers") == List([container])
            && (account.Some? ==> Get(s, "serviceAccountName") == Str(account.value))
            && SameExcept(spec, s, {"containers"} + if account.Some? then {"serviceAccountName"} else {})
  {
  }

  /**
   Rendering puts the whole overlay in force and changes nothing else: old env entries keep their place,
   and differ only in an overridden value or in the name of an overridden secret; added ones are plain.
   */
  lemma RenderFilledIs(base: Value, service: string, o: Overrides, image: string)
    requires base.Map? && OverridesOk(o) && RenderFilled(base, service, o, image).Success?
    ensures InForce(RenderFilled(base, service, o, image).value, service, image, o)
    ensures Framed(base, RenderFilled(base, service, o, image).value, o)
    ensures var before := SingleContainer(base).value.1;
            var after := SingleContainer(RenderFilled(base, service, o, image).value).value.1;
            var plain := ApplyEnv(before, o.env);
            plain.Success? && EnvStage(before, plain.value, o.env) && SecretStage(plain.value, after, o.secrets)
  {
    hide EnvStage, SecretStage, AllEnvInForce, AllSecretsInForce, OverridesOk, SameExcept;
    hide RenderContainer, RenderMetadata, RenderTemplateMetadata, RenderTemplateSpec, Assemble;
    var out := RenderFilled(base, service, o, image).value;
    var (container, entries) := SingleContainer(base).value;
    var c := RenderContainer(container, entries, o, image).value;
    RenderMetadataIs(base, service);
    AnnotationsAreDistinct(o);
    RenderTemplateMetadataIs(base, o.annotations);
    RenderContainerIs(container, entries, o, image);
    EntriesStages(entries, o);
    RenderTemplateSpecIs(TemplateSpecOf(base), c, o.serviceAccount);
    AssembleIs(base, RenderMetadata(base, service).value, RenderTemplateMetadata(TemplateOf(base), o.annotations).value,
               RenderTemplateSpec(TemplateSpecOf(base), c, o.serviceAccount));
    assert ContainersOf(out) == List([c]);
  }

  lemma AnnotationsAreDistinct(o: Overrides)
    requires OverridesOk(o)
    ensures DistinctNames(o.annotations)
  {
  }

  lemma SubstituteKeepsDistinct(o: Overrides, variables: map<string, string>)
    requires OverridesOk(o) && SubstituteOverrides(o, variables).Success?
    ensures OverridesOk(SubstituteOverrides(o, variables).value)
  {
    ManifestGuarantees.SubstituteOverridesSucceeds(o, variables);
  }

  lemma ContainerAgain(container: Value, entries: seq<Value>, o: Overrides, image: string)
    requires container.Map? && AllMaps(entries) && UniqueNames(entries)
    requires Get(container, "env") == List(entries) && Get(container, "image") == Str(image) && image != ""
    requires AllEnvInForce(entries, o.env) && AllSecretsInForce(entries, o.secrets)
    ensures RenderContainer(container, entries, o, image) == Success(container)
  {
    ApplyEnvAgain(entries, o.env);
    ApplySecretsAgain(entries, o.secrets);
    PutSame(container, "env");
    PutSame(container, "image");
  }

  lemma MetadataAgain(out: Value, service: string)
    requires Get(Get(out, "metadata"), "name") == Str(service) && Get(LabelsOf(out), "app") == Str(service)
    ensures RenderMetadata(out, service) == Success(Get(out, "metadata"))
  {
    var metadata := Get(out, "metadata");
    PutSame(metadata, "name");
    PutSame(LabelsOf(out), "app");
    PutSame(metadata, "labels");
  }

  lemma TemplateMetadataAgain(out: Value, bindings: seq<Binding>)
    requires Get(TemplateOf(out), "metadata").Map? && AnnotationsOf(out).Map?
    requires forall k :: 0 <= k < |bindings| ==> Get(AnnotationsOf(out), bindings[k].name) == Str(bindings[k].value)
    ensures RenderTemplateMetadata(TemplateOf(out), bindings) == Success(Get(TemplateOf(out), "metadata"))
  {
    PutAllAgain(AnnotationsOf(out), bindings);
    PutSame(Get(TemplateOf(out), "metadata"), "annotations");
  }

  lemma TemplateSpecAgain(spec: Value, container: Value, account: Option<string>)
    requires spec.Map? && Get(spec, "containers") == List([container])
    requires account.Some? ==> Get(spec, "serviceAccountName") == Str(account.value)
    ensures RenderTemplateSpec(spec, container, account) == spec
  {
    PutSame(spec, "containers");
    if account.Some? {
      PutSame(spec, "serviceAccountName");
    }
  }

  /** Putting a manifest's own parts back into it changes nothing. */
  lemma AssembleAgain(out: Value)
    requires out.Map? && TemplateOf(out).Map? && TemplateSpecOf(out).Map?
    requires Get(out, "metadata").Map? && Get(TemplateOf(out), "metadata").Map?
    ensures Assemble(out, Get(out, "metadata"), Get(TemplateOf(out), "metadata"), TemplateSpecOf(out)) == out
  {
    PutSame(TemplateOf(out), "metadata");
    PutSame(TemplateOf(out), "spec");
    PutSame(out, "metadata");
    PutSame(Get(out, "spec"), "template");
    PutSame(out, "spec");
  }

  /** A manifest in which the overlay is in force is a fixed point of rendering it. */
  lemma RenderFilledAgain(out: Value, service: string, o: Overrides, image: string)
    requires InForce(out, service, image, o)
    ensures RenderFilled(out, service, o, image) == Success(out)
  {
    hide AllEnvInForce, AllSecretsInForce, RenderContainer, RenderMetadata, RenderTemplateMetadata, RenderTemplateSpec, Assemble;
    var (container, entries) := SingleContainer(out).value;
    assert ContainersOf(out).items == [container];
    ContainerAgain(container, entries, o, image);
    MetadataAgain(out, service);
    TemplateMetadataAgain(out, o.annotations);
    TemplateSpecAgain(TemplateSpecOf(out), container, o.serviceAccount);
    AssembleAgain(out);
  }

  /* ---------- names backed by secrets ---------- */

  ghost predicate SecretNamed(entries: seq<Value>, name: string) {
    exists i :: 0 <= i < |entries| && IsNamed(entries[i], name) && HasSecretRef(entries[i])
  }

  lemma StageKeepsSecretName(before: seq<Value>, plain: seq<Value>, after: seq<Value>, env: seq<Binding>,
                             secrets: seq<Binding>, name: string)
    requires EnvStage(before, plain, env) && SecretStage(plain, after, secrets)
    ensures SecretNamed(before, name) <==> SecretNamed(after, name)
  {
    if i :| 0 <= i < |before| && IsNamed(before[i], name) && HasSecretRef(before[i]) {
      assert PlainEdit(before[i], plain[i], env) && SecretEdit(plain[i], after[i], secrets);
      SecretEditKeeps(plain[i], after[i], secrets);
      assert IsNamed(after[i], name) && HasSecretRef(after[i]);
    }
    if i :| 0 <= i < |after| && IsNamed(after[i], name) && HasSecretRef(after[i]) {
      assert SecretEdit(plain[i], after[i], secrets);
      SecretEditKeeps(plain[i], after[i], secrets);
      if i < |before| {
        PlainEditKeeps(before[i], plain[i], env);
      }
      assert IsNamed(before[i], name) && HasSecretRef(before[i]);
    }
  }

  lemma SecretEditKeeps(before: Value, after: Value, secrets: seq<Binding>)
    requires SecretEdit(before, after, secrets)
    ensures HasSecretRef(before) == HasSecretRef(after) && Get(before, "name") == Get(after, "name")
  {
    if after != before {
      assert "name" in before.fields - {"valueFrom"} <==> "name" in after.fields - {"valueFrom"};
      assert "name" in before.fields ==> (before.fields - {"valueFrom"})["name"] == (after.fields - {"valueFrom"})["name"];
    }
  }

  lemma PlainEditKeeps(before: Value, after: Value, env: seq<Binding>)
    requires PlainEdit(before, after, env)
    ensures HasSecretRef(before) == HasSecretRef(after)
  {
    if after != before {
      assert "valueFrom" in before.fields - {"value"} <==> "valueFrom" in after.fields - {"value"};
    }
  }

  lemma RenderFilledKeepsSecretNames(base: Value, service: string, o: Overrides, image: string, name: string)
    requires base.Map? && OverridesOk(o) && RenderFilled(base, service, o, image).Success?
    ensures SingleContainer(base).Success? && SingleContainer(RenderFilled(base, service, o, image).value).Success?
    ensures SecretNamed(SingleContainer(base).value.1, name)
       <==> SecretNamed(SingleContainer(RenderFilled(base, service, o, image).value).value.1, name)
  {
    hide EnvStage, SecretStage, SecretNamed, Framed, SingleContainer;
    RenderFilledIs(base, service, o, image);
    var before := SingleContainer(base).value.1;
    var after := SingleContainer(RenderFilled(base, service, o, image).value).value.1;
    StageKeepsSecretName(before, ApplyEnv(before, o.env).value, after, o.env, o.secrets, name);
  }

  /**
   The renderer's whole effect: the overlay is in force, everything it may not touch is as in the base, env names
   stay unique, and exactly the same names are backed by secrets as before.
   */
  lemma RenderChangesOnlyTheOverlay(base: Value, environment: Environment, image: string, variables: map<string, string>,
                                    name: string)
    requires OverridesOk(environment.overrides) && Render(base, environment, image, variables).Success?
    ensures var out := Render(base, environment, image, variables).value;
            var o := SubstituteOverrides(environment.overrides, variables).value;
            && InForce(out, environment.service, image, o) && Framed(base, out, o)
            && UniqueNames(SingleContainer(out).value.1)
            && (SecretNamed(SingleContainer(base).value.1, name) <==> SecretNamed(SingleContainer(out).value.1, name))
  {
    hide InForce, Framed, SecretNamed, RenderFilled, SingleContainer, UniqueNames, SubstituteOverrides;
    var o := SubstituteOverrides(environment.overrides, variables).value;
    SubstituteKeepsDistinct(environment.overrides, variables);
    RenderFilledIs(base, environment.service, o, image);
    RenderFilledKeepsSecretNames(base, environment.service, o, image, name);
  }

  /** Rendering an already rendered manifest for the same environment, image and variables changes nothing. */
  lemma RenderIsIdempotent(base: Value, environment: Environment, image: string, variables: map<string, string>)
    requires OverridesOk(environment.overrides) && Render(base, environment, image, variables).Success?
    ensures var out := Render(base, environment, image, variables).value;
            Render(out, environment, image, variables) == Success(out)
  {
    var o := SubstituteOverrides(environment.overrides, variables).value;
    SubstituteKeepsDistinct(environment.overrides, variables);
    RenderFilledIs(base, environment.service, o, image);
    RenderFilledAgain(Render(base, environment, image, variables).value, environment.service, o, image);
  }
}
