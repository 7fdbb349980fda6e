/** shared/secret-sync-order.ts: whether every pod that reads a Secret a controller writes starts after it is
    written, checked on the rendered documents and proved against the scheduler the check is about. */
module SyncOrder {
  import opened Common
  import opened Text

  // ---------------------------------------------------------------- a rendered document, and how it is read

  datatype Json = Null | Bool(b: bool) | Int(n: int) | Fraction | Str(s: string) | Arr(items: seq<Json>) | Obj(fields: map<string, Json>)

  datatype Doc = Doc(kind: string, name: string, raw: map<string, Json>)

  type Record = Option<map<string, Json>>

  function AsRecord(v: Json): Record { if v.Obj? then Some(v.fields) else None }

  function Field(r: Record, key: string): Json { if r.Some? && key in r.value then r.value[key] else Null }

  function At(r: Record, key: string): Record { AsRecord(Field(r, key)) }

  function AsText(v: Json): Option<string> { if v.Str? && v.s != "" then Some(v.s) else None }

  function Records(items: seq<Json>): seq<map<string, Json>> {
    if items == [] then [] else (if items[0].Obj? then [items[0].fields] else []) + Records(items[1..])
  }

  function AsList(v: Json): seq<map<string, Json>> { if v.Arr? then Records(v.items) else [] }

  function Annotation(d: Doc, key: string): Json { Field(At(At(Some(d.raw), "metadata"), "annotations"), key) }

  /** [+-]?[0-9]+ */
  predicate IsInteger(s: string) {
    s != [] && (AllDigits(s) || ((s[0] == '+' || s[0] == '-') && |s| > 1 && AllDigits(s[1..])))
  }

  function WaveOf(d: Doc): int {
    var v := Annotation(d, "argocd.argoproj.io/sync-wave");
    if v.Int? then v.n
    else if v.Str? && IsInteger(v.s) then
      if v.s[0] == '-' then -(Value(v.s[1..]) as int) else if v.s[0] == '+' then Value(v.s[1..]) else Value(v.s)
    else 0
  }

  function Trimmed(fields: seq<string>): (r: seq<string>)
    ensures |r| == |fields| && forall i :: 0 <= i < |r| ==> r[i] == Trim(fields[i])
  {
    seq(|fields|, i requires 0 <= i < |fields| => Trim(fields[i]))
  }

  function HookPhases(d: Doc): seq<string> {
    var v := Annotation(d, "argocd.argoproj.io/hook");
    if v.Str? then Trimmed(Split(v.s, ',')) else []
  }

  function OrElse(a: Option<string>, b: Option<string>): Option<string> { if a.Some? then a else b }

  function WrittenSecret(d: Doc): Option<string> {
    var spec := At(Some(d.raw), "spec");
    if d.kind == "ServiceClaim" then
      var service := AsText(Field(spec, "service"));
      OrElse(AsText(Field(spec, "secretName")), if service.Some? && d.name != "" then Some(d.name + "-" + service.value) else None)
    else if d.kind == "ExternalSecret" then
      OrElse(AsText(Field(At(spec, "target"), "name")), if d.name != "" then Some(d.name) else None)
    else None
  }

  function PodOf(d: Doc): Record {
    var spec := At(Some(d.raw), "spec");
    if d.kind == "Pod" then spec
    else if d.kind == "CronJob" then At(At(At(At(spec, "jobTemplate"), "spec"), "template"), "spec")
    else if d.kind in ["Deployment", "StatefulSet", "DaemonSet", "ReplicaSet", "Job"] then At(At(spec, "template"), "spec")
    else None
  }

  datatype Read = Read(name: string, path: string)

  function Named(v: Json, path: string): (found: seq<Read>)
    ensures forall r :: r in found ==> r.name != ""
  {
    if AsText(v).Some? then [Read(AsText(v).value, path)] else []
  }

  function Indexed(prefix: string, i: nat): string { prefix + "[" + Decimal(i) + "]" }

  function PullReads(items: seq<map<string, Json>>, i: nat): (found: seq<Read>)
    ensures forall r :: r in found ==> r.name != ""
    decreases |items| - i
  {
    if i >= |items| then [] else
      Named(Field(Some(items[i]), "name"), Indexed("imagePullSecrets", i) + ".name") + PullReads(items, i + 1)
  }

  function EnvReads(items: seq<map<string, Json>>, path: string, i: nat): (found: seq<Read>)
    ensures forall r :: r in found ==> r.name != ""
    decreases |items| - i
  {
    if i >= |items| then [] else
      Named(Field(At(At(Some(items[i]), "valueFrom"), "secretKeyRef"), "name"), Indexed(path + ".env", i) + ".valueFrom.secretKeyRef.name")
        + EnvReads(items, path, i + 1)
  }

  function EnvFromReads(items: seq<map<string, Json>>, path: string, i: nat): (found: seq<Read>)
    ensures forall r :: r in found ==> r.name != ""
    decreases |items| - i
  {
    if i >= |items| then [] else
      Named(Field(At(Some(items[i]), "secretRef"), "name"), Indexed(path + ".envFrom", i) + ".secretRef.name") + EnvFromReads(items, path, i + 1)
  }

  function ContainerReads(items: seq<map<string, Json>>, group: string, i: nat): (found: seq<Read>)
    ensures forall r :: r in found ==> r.name != ""
    decreases |items| - i
  {
    if i >= |items| then [] else
      EnvReads(AsList(Field(Some(items[i]), "env")), Indexed(group, i), 0)
        + EnvFromReads(AsList(Field(Some(items[i]), "envFrom")), Indexed(group, i), 0) + ContainerReads(items, group, i + 1)
  }

  function SourceReads(items: seq<map<string, Json>>, path: string, i: nat): (found: seq<Read>)
    ensures forall r :: r in found ==> r.name != ""
    decreases |items| - i
  {
    if i >= |items| then [] else
      Named(Field(At(Some(items[i]), "secret"), "name"), Indexed(path + ".projected.sources", i) + ".secret.name") + SourceReads(items, path, i + 1)
  }

  function VolumeReads(items: seq<map<string, Json>>, i: nat): (found: seq<Read>)
    ensures forall r :: r in found ==> r.name != ""
    decreases |items| - i
  {
    if i >= |items| then [] else
      Named(Field(At(Some(items[i]), "secret"), "secretName"), Indexed("volumes", i) + ".secret.secretName")
        + SourceReads(AsList(Field(At(Some(items[i]), "projected"), "sources")), Indexed("volumes", i), 0) + VolumeReads(items, i + 1)
  }

  /** `secretsOf`: every Secret a pod names, in the order the pod is read. */
  function SecretsOf(pod: map<string, Json>): (found: seq<Read>)
    ensures forall r :: r in found ==> r.name != ""
  {
    PullReads(AsList(Field(Some(pod), "imagePullSecrets")), 0)
      + ContainerReads(AsList(Field(Some(pod), "initContainers")), "initContainers", 0)
      + ContainerReads(AsList(Field(Some(pod), "containers")), "containers", 0)
      + VolumeReads(AsList(Field(Some(pod), "volumes")), 0)
  }

  function ReadsOf(d: Doc): seq<Read> { if PodOf(d).Some? then SecretsOf(PodOf(d).value) else [] }

  // ---------------------------------------------------------------- what the readings mean

  /** One hop of a path: the value under a key, or some object of a list. */
  datatype Hop = Under(key: string) | Each

  /** `x` stands in `v` at the end of the path. */
  ghost predicate StandsAt(v: Json, path: seq<Hop>, x: Json)
    decreases |path|
  {
    if path == [] then v == x
    else match path[0]
      case Under(k) => v.Obj? && k in v.fields && StandsAt(v.fields[k], path[1..], x)
      case Each => v.Arr? && exists y :: y in v.items && y.Obj? && StandsAt(y, path[1..], x)
  }

  lemma UnderIs(v: Json, k: string, path: seq<Hop>, x: Json)
    requires !x.Null?
    ensures StandsAt(v, [Under(k)] + path, x) <==> StandsAt(Field(AsRecord(v), k), path, x)
  {
    assert ([Under(k)] + path)[1..] == path;
  }

  /** Somewhere among the records from `i` on. */
  ghost predicate InSome(items: seq<map<string, Json>>, i: nat, path: seq<Hop>, x: Json) {
    exists k :: i <= k < |items| && StandsAt(Obj(items[k]), path, x)
  }

  lemma InSomeNext(items: seq<map<string, Json>>, i: nat, path: seq<Hop>, x: Json)
    ensures InSome(items, i, path, x) <==> i < |items| && (StandsAt(Obj(items[i]), path, x) || InSome(items, i + 1, path, x))
  {
  }

  lemma {:induction false} RecordsAre(items: seq<Json>, m: map<string, Json>)
    ensures m in Records(items) <==> Obj(m) in items
  {
    if items != [] {
      RecordsAre(items[1..], m);
      assert items == [items[0]] + items[1..];
    }
  }

  lemma EachIs(v: Json, path: seq<Hop>, x: Json)
    ensures StandsAt(v, [Each] + path, x) <==> InSome(AsList(v), 0, path, x)
  {
    assert ([Each] + path)[1..] == path;
    if v.Arr? {
      forall m ensures m in AsList(v) <==> Obj(m) in v.items { RecordsAre(v.items, m); }
      if y :| y in v.items && y.Obj? && StandsAt(y, path, x) {
        assert y.fields in AsList(v);
      }
      if k :| 0 <= k < |AsList(v)| && StandsAt(Obj(AsList(v)[k]), path, x) {
        assert AsList(v)[k] in AsList(v);
      }
    }
  }

  ghost predicate Names(found: seq<Read>, name: string) { exists r :: r in found && r.name == name }

  lemma NamesAdd(a: seq<Read>, b: seq<Read>, name: string)
    ensures Names(a + b, name) <==> Names(a, name) || Names(b, name)
  {
  }

  lemma NamedIs(v: Json, path: string, name: string)
    requires name != ""
    ensures Names(Named(v, path), name) <==> v == Str(name)
  {
    if v == Str(name) { assert Read(name, path) in Named(v, path); }
  }

  /** Where a value has `name` under one, two or three keys. */
  lemma UnderThree(v: Json, a: string, b: string, c: string, name: string)
    ensures StandsAt(v, [Under(c)], Str(name)) <==> Field(AsRecord(v), c) == Str(name)
    ensures StandsAt(v, [Under(b), Under(c)], Str(name)) <==> Field(At(AsRecord(v), b), c) == Str(name)
    ensures StandsAt(v, [Under(a), Under(b), Under(c)], Str(name)) <==> Field(At(At(AsRecord(v), a), b), c) == Str(name)
  {
    UnderTwo(v, b, c, Str(name));
    UnderTwo(Field(AsRecord(v), a), b, c, Str(name));
    UnderIs(v, a, [Under(b), Under(c)], Str(name));
    assert [Under(a)] + [Under(b), Under(c)] == [Under(a), Under(b), Under(c)];
  }

  lemma UnderTwo(v: Json, b: string, c: string, x: Json)
    requires !x.Null?
    ensures StandsAt(v, [Under(c)], x) <==> Field(AsRecord(v), c) == x
    ensures StandsAt(v, [Under(b), Under(c)], x) <==> Field(At(AsRecord(v), b), c) == x
  {
    UnderIs(v, c, [], x);
    UnderIs(Field(AsRecord(v), b), c, [], x);
    UnderIs(v, b, [Under(c)], x);
    assert [Under(c)] + [] == [Under(c)] && [Under(b)] + [Under(c)] == [Under(b), Under(c)];
  }

  const PULL: seq<Hop> := [Under("name")]
  const ENV: seq<Hop> := [Under("valueFrom"), Under("secretKeyRef"), Under("name")]
  const ENV_FROM: seq<Hop> := [Under("secretRef"), Under("name")]
  const SOURCE: seq<Hop> := [Under("secret"), Under("name")]
  const VOLUME: seq<Hop> := [Under("secret"), Under("secretName")]

  lemma NoNames(name: string)
    ensures !Names([], name)
  {
  }

  /** One more read in front, of a value that is `name` exactly where the record has it at the path. */
  lemma OneRead(items: seq<map<string, Json>>, i: nat, path: seq<Hop>, v: Json, text: string, rest: seq<Read>, name: string)
    requires name != "" && i < |items| && (StandsAt(Obj(items[i]), path, Str(name)) <==> v == Str(name))
    requires Names(rest, name) <==> InSome(items, i + 1, path, Str(name))
    ensures Names(Named(v, text) + rest, name) <==> InSome(items, i, path, Str(name))
  {
    InSomeNext(items, i, path, Str(name));
    NamedIs(v, text, name);
    NamesAdd(Named(v, text), rest, name);
  }

  lemma {:induction false} PullIs(items: seq<map<string, Json>>, i: nat, name: string)
    requires name != ""
    ensures Names(PullReads(items, i), name) <==> InSome(items, i, PULL, Str(name))
    decreases |items| - i
  {
    hide StandsAt, InSome, Names;
    if i < |items| {
      PullIs(items, i + 1, name);
      UnderThree(Obj(items[i]), "", "", "name", name);
      OneRead(items, i, PULL, Field(Some(items[i]), "name"), Indexed("imagePullSecrets", i) + ".name", PullReads(items, i + 1), name);
    } else {
      NoNames(name);
      InSomeNext(items, i, PULL, Str(name));
    }
  }

  lemma {:induction false} EnvIs(items: seq<map<string, Json>>, path: string, i: nat, name: string)
    requires name != ""
    ensures Names(EnvReads(items, path, i), name) <==> InSome(items, i, ENV, Str(name))
    decreases |items| - i
  {
    hide StandsAt, InSome, Names;
    if i < |items| {
      EnvIs(items, path, i + 1, name);
      UnderThree(Obj(items[i]), "valueFrom", "secretKeyRef", "name", name);
      OneRead(items, i, ENV, Field(At(At(Some(items[i]), "valueFrom"), "secretKeyRef"), "name"), Indexed(path + ".env", i) + ".valueFrom.secretKeyRef.name", EnvReads(items, path, i + 1), name);
    } else {
      NoNames(name);
      InSomeNext(items, i, ENV, Str(name));
    }
  }

  lemma {:induction false} EnvFromIs(items: seq<map<string, Json>>, path: string, i: nat, name: string)
    requires name != ""
    ensures Names(EnvFromReads(items, path, i), name) <==> InSome(items, i, ENV_FROM, Str(name))
    decreases |items| - i
  {
    hide StandsAt, InSome, Names;
    if i < |items| {
      EnvFromIs(items, path, i + 1, name);
      UnderThree(Obj(items[i]), "", "secretRef", "name", name);
      OneRead(items, i, ENV_FROM, Field(At(Some(items[i]), "secretRef"), "name"), Indexed(path + ".envFrom", i) + ".secretRef.name", EnvFromReads(items, path, i + 1), name);
    } else {
      NoNames(name);
      InSomeNext(items, i, ENV_FROM, Str(name));
    }
  }

  lemma {:induction false} SourceIs(items: seq<map<string, Json>>, path: string, i: nat, name: string)
    requires name != ""
    ensures Names(SourceReads(items, path, i), name) <==> InSome(items, i, SOURCE, Str(name))
    decreases |items| - i
  {
    hide StandsAt, InSome, Names;
    if i < |items| {
      SourceIs(items, path, i + 1, name);
      UnderThree(Obj(items[i]), "", "secret", "name", name);
      OneRead(items, i, SOURCE, Field(At(Some(items[i]), "secret"), "name"), Indexed(path + ".projected.sources", i) + ".secret.name", SourceReads(items, path, i + 1), name);
    } else {
      NoNames(name);
      InSomeNext(items, i, SOURCE, Str(name));
    }
  }

  /** Under a key, some object of the list there. */
  lemma UnderEach(v: Json, k: string, path: seq<Hop>, x: Json)
    requires !x.Null?
    ensures StandsAt(v, [Under(k), Each] + path, x) <==> InSome(AsList(Field(AsRecord(v), k)), 0, path, x)
  {
    UnderIs(v, k, [Each] + path, x);
    EachIs(Field(AsRecord(v), k), path, x);
    assert [Under(k)] + ([Each] + path) == [Under(k), Each] + path;
  }

  ghost predicate InEnv(items: seq<map<string, Json>>, i: nat, x: Json) {
    InSome(items, i, [Under("env"), Each] + ENV, x) || InSome(items, i, [Under("envFrom"), Each] + ENV_FROM, x)
  }

  lemma {:induction false} ContainerIs(items: seq<map<string, Json>>, group: string, i: nat, name: string)
    requires name != ""
    ensures Names(ContainerReads(items, group, i), name) <==> InEnv(items, i, Str(name))
    decreases |items| - i
  {
    hide StandsAt, InSome, Names;
    InSomeNext(items, i, [Under("env"), Each] + ENV, Str(name));
    InSomeNext(items, i, [Under("envFrom"), Each] + ENV_FROM, Str(name));
    if i < |items| {
      var v, at := Obj(items[i]), Indexed(group, i);
      var a, b := EnvReads(AsList(Field(Some(items[i]), "env")), at, 0), EnvFromReads(AsList(Field(Some(items[i]), "envFrom")), at, 0);
      ContainerIs(items, group, i + 1, name);
      UnderEach(v, "env", ENV, Str(name));
      UnderEach(v, "envFrom", ENV_FROM, Str(name));
      EnvIs(AsList(Field(Some(items[i]), "env")), at, 0, name);
      EnvFromIs(AsList(Field(Some(items[i]), "envFrom")), at, 0, name);
      NamesAdd(a, b, name);
      NamesAdd(a + b, ContainerReads(items, group, i + 1), name);
    } else {
      NoNames(name);
    }
  }

  ghost predicate InVolume(items: seq<map<string, Json>>, i: nat, x: Json) {
    InSome(items, i, VOLUME, x) || InSome(items, i, [Under("projected"), Under("sources"), Each] + SOURCE, x)
  }

  lemma {:induction false} VolumeIs(items: seq<map<string, Json>>, i: nat, name: string)
    requires name != ""
    ensures Names(VolumeReads(items, i), name) <==> InVolume(items, i, Str(name))
    decreases |items| - i
  {
    hide StandsAt, InSome, Names;
    var projected := [Under("projected"), Under("sources"), Each] + SOURCE;
    InSomeNext(items, i, VOLUME, Str(name));
    InSomeNext(items, i, projected, Str(name));
    if i < |items| {
      var v, sources := Obj(items[i]), AsList(Field(At(Some(items[i]), "projected"), "sources"));
      var secret := Field(At(Some(items[i]), "secret"), "secretName");
      var a := Named(secret, Indexed("volumes", i) + ".secret.secretName");
      var b := SourceReads(sources, Indexed("volumes", i), 0);
      VolumeIs(items, i + 1, name);
      UnderThree(v, "", "secret", "secretName", name);
      NamedIs(secret, Indexed("volumes", i) + ".secret.secretName", name);
      UnderIs(v, "projected", [Under("sources"), Each] + SOURCE, Str(name));
      UnderEach(Field(AsRecord(v), "projected"), "sources", SOURCE, Str(name));
      assert [Under("projected")] + ([Under("sources"), Each] + SOURCE) == projected;
      SourceIs(sources, Indexed("volumes", i), 0, name);
      NamesAdd(a, b, name);
      NamesAdd(a + b, VolumeReads(items, i + 1), name);
    } else {
      NoNames(name);
    }
  }

  lemma InEitherList(v: Json, k: string, a: seq<Hop>, b: seq<Hop>, x: Json)
    requires !x.Null?
    ensures StandsAt(v, [Under(k), Each] + a, x) || StandsAt(v, [Under(k), Each] + b, x)
      <==> InSome(AsList(Field(AsRecord(v), k)), 0, a, x) || InSome(AsList(Field(AsRecord(v), k)), 0, b, x)
  {
    UnderEach(v, k, a, x);
    UnderEach(v, k, b, x);
  }

  /** The ways a pod names a Secret. */
  ghost predicate PodNames(pod: Json, name: string) {
    || StandsAt(pod, [Under("imagePullSecrets"), Each, Under("name")], Str(name))
    || StandsAt(pod, [Under("initContainers"), Each, Under("env"), Each, Under("valueFrom"), Under("secretKeyRef"), Under("name")], Str(name))
    || StandsAt(pod, [Under("initContainers"), Each, Under("envFrom"), Each, Under("secretRef"), Under("name")], Str(name))
    || StandsAt(pod, [Under("containers"), Each, Under("env"), Each, Under("valueFrom"), Under("secretKeyRef"), Under("name")], Str(name))
    || StandsAt(pod, [Under("containers"), Each, Under("envFrom"), Each, Under("secretRef"), Under("name")], Str(name))
    || StandsAt(pod, [Under("volumes"), Each, Under("secret"), Under("secretName")], Str(name))
    || StandsAt(pod, [Under("volumes"), Each, Under("projected"), Under("sources"), Each, Under("secret"), Under("name")], Str(name))
  }

  lemma GroupIs(pod: map<string, Json>, group: string, name: string)
    requires name != ""
    ensures Names(ContainerReads(AsList(Field(Some(pod), group)), group, 0), name) <==>
      || StandsAt(Obj(pod), [Under(group), Each, Under("env"), Each, Under("valueFrom"), Under("secretKeyRef"), Under("name")], Str(name))
      || StandsAt(Obj(pod), [Under(group), Each, Under("envFrom"), Each, Under("secretRef"), Under("name")], Str(name))
  {
    hide StandsAt, InSome, Names;
    var a, b := [Under("env"), Each] + ENV, [Under("envFrom"), Each] + ENV_FROM;
    InEitherList(Obj(pod), group, a, b, Str(name));
    ContainerIs(AsList(Field(Some(pod), group)), group, 0, name);
    assert [Under(group), Each] + a == [Under(group), Each, Under("env"), Each, Under("valueFrom"), Under("secretKeyRef"), Under("name")];
    assert [Under(group), Each] + b == [Under(group), Each, Under("envFrom"), Each, Under("secretRef"), Under("name")];
  }

  lemma VolumesAre(pod: map<string, Json>, name: string)
    requires name != ""
    ensures Names(VolumeReads(AsList(Field(Some(pod), "volumes")), 0), name) <==>
      || StandsAt(Obj(pod), [Under("volumes"), Each, Under("secret"), Under("secretName")], Str(name))
      || StandsAt(Obj(pod), [Under("volumes"), Each, Under("projected"), Under("sources"), Each, Under("secret"), Under("name")], Str(name))
  {
    hide StandsAt, InSome, Names;
    var a, b := VOLUME, [Under("projected"), Under("sources"), Each] + SOURCE;
    InEitherList(Obj(pod), "volumes", a, b, Str(name));
    VolumeIs(AsList(Field(Some(pod), "volumes")), 0, name);
    assert [Under("volumes"), Each] + a == [Under("volumes"), Each, Under("secret"), Under("secretName")];
    assert [Under("volumes"), Each] + b == [Under("volumes"), Each, Under("projected"), Under("sources"), Each, Under("secret"), Under("name")];
  }

  /** The Secrets found in a pod are exactly the ones it names in one of the seven ways. */
  lemma SecretsAre(pod: map<string, Json>, name: string)
    ensures Names(SecretsOf(pod), name) <==> name != "" && PodNames(Obj(pod), name)
  {
    hide StandsAt, InSome;
    if name != "" {
      var pulls := AsList(Field(Some(pod), "imagePullSecrets"));
      PullIs(pulls, 0, name);
      UnderEach(Obj(pod), "imagePullSecrets", PULL, Str(name));
      assert [Under("imagePullSecrets"), Each] + PULL == [Under("imagePullSecrets"), Each, Under("name")];
      GroupIs(pod, "initContainers", name);
      GroupIs(pod, "containers", name);
      VolumesAre(pod, name);
      FourParts(PullReads(pulls, 0), ContainerReads(AsList(Field(Some(pod), "initContainers")), "initContainers", 0),
        ContainerReads(AsList(Field(Some(pod), "containers")), "containers", 0), VolumeReads(AsList(Field(Some(pod), "volumes")), 0), name);
    }
  }

  lemma FourParts(a: seq<Read>, b: seq<Read>, c: seq<Read>, d: seq<Read>, name: string)
    ensures Names(a + b + c + d, name) <==> Names(a, name) || Names(b, name) || Names(c, name) || Names(d, name)
  {
    hide Names;
    NamesAdd(a, b, name);
    NamesAdd(a + b, c, name);
    NamesAdd(a + b + c, d, name);
  }

  // ---------------------------------------------------------------- what is judged

  const AFTER_EVERY_WAVE := ["PostSync", "SyncFail", "PostDelete"]

  predicate IsSkipped(d: Doc) { "Skip" in HookPhases(d) }

  predicate RunsLast(d: Doc) {
    HookPhases(d) != [] && forall p :: p in HookPhases(d) ==> p in AFTER_EVERY_WAVE
  }

  predicate RunsFirst(d: Doc) { "PreSync" in HookPhases(d) }

  predicate IsJudged(d: Doc) { PodOf(d).Some? && !IsSkipped(d) && !RunsLast(d) }

  /** A read of a written Secret: document `doc` reads it, and the last document that writes it is `owner`. */
  datatype Use = Use(doc: nat, read: Read, owner: nat)

  /** The place of the last document that writes `name`, none if nothing does. */
  function WriterOf(docs: seq<Doc>, name: string): (w: Option<nat>)
    ensures w.Some? ==> w.value < |docs| && WrittenSecret(docs[w.value]) == Some(name)
    ensures forall i :: (if w.Some? then w.value else -1) < i < |docs| ==> WrittenSecret(docs[i]) != Some(name)
  {
    if docs == [] then None
    else if WrittenSecret(docs[|docs| - 1]) == Some(name) then Some(|docs| - 1)
    else WriterOf(docs[..|docs| - 1], name)
  }

  function UsesOf(docs: seq<Doc>, doc: nat, found: seq<Read>): (r: seq<Use>)
    ensures forall u :: u in r <==> u.doc == doc && u.read in found && WriterOf(docs, u.read.name) == Some(u.owner)
  {
    if found == [] then [] else
      var w, rest := WriterOf(docs, found[0].name), UsesOf(docs, doc, found[1..]);
      assert found == [found[0]] + found[1..];
      if w.Some? then [Use(doc, found[0], w.value)] + rest else rest
  }

  /** Every use that is judged, from document `i` on, in document order. */
  function UsesFrom(docs: seq<Doc>, i: nat): (r: seq<Use>)
    ensures forall u :: u in r <==> i <= u.doc < |docs| && IsJudged(docs[u.doc]) && u.read in ReadsOf(docs[u.doc]) && WriterOf(docs, u.read.name) == Some(u.owner)
    decreases |docs| - i
  {
    if i >= |docs| then [] else
      (if IsJudged(docs[i]) then UsesOf(docs, i, ReadsOf(docs[i])) else []) + UsesFrom(docs, i + 1)
  }

  /** The use stands too early. */
  predicate IsEarly(docs: seq<Doc>, u: Use)
    requires u.doc < |docs| && u.owner < |docs|
  {
    RunsFirst(docs[u.doc]) || WaveOf(docs[u.doc]) <= WaveOf(docs[u.owner])
  }

  ghost predicate NoneEarly(docs: seq<Doc>, us: seq<Use>) {
    forall u :: u in us ==> u.doc < |docs| && u.owner < |docs| && !IsEarly(docs, u)
  }

  datatype Reading = Reading(writtenSecrets: nat, uses: nat, breach: Option<Use>)

  /** The first `n` uses are judged and fine, and `rest` is to come. */
  ghost predicate FineUpTo(docs: seq<Doc>, us: seq<Use>, n: nat, rest: seq<Use>) {
    n <= |us| && us[n..] == rest && NoneEarly(docs, us[..n])
  }

  /** The last of the `n` uses judged is the first that is early. */
  ghost predicate BreaksAt(docs: seq<Doc>, us: seq<Use>, n: nat, b: Use) {
    && 1 <= n <= |us| && b == us[n - 1] && b.doc < |docs| && b.owner < |docs|
    && IsEarly(docs, b) && NoneEarly(docs, us[..n - 1])
  }

  /** What the reading says of the uses: all were judged and none is early, or the last one judged is the
      first that is. */
  ghost predicate Says(docs: seq<Doc>, r: Reading) {
    var us := UsesFrom(docs, 0);
    match r.breach
    case None => r.uses == |us| && NoneEarly(docs, us)
    case Some(b) => BreaksAt(docs, us, r.uses, b)
  }

  ghost predicate IsWriters(docs: seq<Doc>, writers: map<string, nat>) {
    forall n :: (n in writers <==> WriterOf(docs, n).Some?) && (n in writers ==> WriterOf(docs, n) == Some(writers[n]))
  }

  /** `writers`: the later writer of a name replaces the earlier. */
  method ReadWriters(docs: seq<Doc>) returns (writers: map<string, nat>)
    ensures IsWriters(docs, writers)
  {
    writers := map[];
    for i := 0 to |docs|
      invariant IsWriters(docs[..i], writers)
    {
      assert docs[..i + 1][..i] == docs[..i];
      var secret := WrittenSecret(docs[i]);
      if secret.Some? {
        writers := writers[secret.value := i];
      }
    }
    TakeAll(docs);
  }

  /** The loop over one document's reads: `n` uses of the list `us` are judged, and `rest` follows them. */
  method JudgeReads(docs: seq<Doc>, i: nat, found: seq<Read>, writers: map<string, nat>, ghost us: seq<Use>, ghost rest: seq<Use>, n: nat)
    returns (uses: nat, breach: Option<Use>)
    requires i < |docs| && IsWriters(docs, writers)
    requires FineUpTo(docs, us, n, UsesOf(docs, i, found) + rest)
    ensures breach.None? ==> FineUpTo(docs, us, uses, rest)
    ensures breach.Some? ==> BreaksAt(docs, us, uses, breach.value)
  {
    uses := n;
    for k := 0 to |found|
      invariant FineUpTo(docs, us, uses, UsesOf(docs, i, found[k..]) + rest)
    {
      assert found[k..][1..] == found[k + 1..];
      if found[k].name in writers {
        var u := Use(i, found[k], writers[found[k].name]);
        NextUse(docs, us, uses, u, UsesOf(docs, i, found[k + 1..]), UsesOf(docs, i, found[k..]), rest);
        uses := uses + 1;
        if !(!RunsFirst(docs[i]) && WaveOf(docs[i]) > WaveOf(docs[u.owner])) {
          return uses, Some(u);
        }
      }
    }
    assert [] + rest == rest;
    return uses, None;
  }

  method ReadSyncOrder(docs: seq<Doc>) returns (r: Reading)
    ensures Says(docs, r)
    ensures r.writtenSecrets == |set d | d in docs && WrittenSecret(d).Some? :: WrittenSecret(d).value|
  {
    var writers := ReadWriters(docs);
    WritersCounted(docs, writers);
    ghost var us := UsesFrom(docs, 0);
    if |writers| == 0 {
      UsesHaveWriters(docs, writers);
      return Reading(0, 0, None);
    }
    var uses: nat := 0;
    for i := 0 to |docs|
      invariant FineUpTo(docs, us, uses, UsesFrom(docs, i))
    {
      if IsJudged(docs[i]) {
        var breach;
        uses, breach := JudgeReads(docs, i, ReadsOf(docs[i]), writers, us, UsesFrom(docs, i + 1), uses);
        if breach.Some? {
          return Reading(|writers|, uses, breach);
        }
      }
    }
    TakeAll(us);
    return Reading(|writers|, uses, None);
  }

  lemma NextUse(docs: seq<Doc>, us: seq<Use>, n: nat, u: Use, later: seq<Use>, here: seq<Use>, rest: seq<Use>)
    requires FineUpTo(docs, us, n, here + rest) && here == [u] + later && u.doc < |docs| && u.owner < |docs|
    ensures IsEarly(docs, u) ==> BreaksAt(docs, us, n + 1, u)
    ensures !IsEarly(docs, u) ==> FineUpTo(docs, us, n + 1, later + rest)
  {
    assert us[n..][0] == u && us[n..][1..] == later + rest;
    assert us[..n + 1] == us[..n] + [u];
  }

  lemma UsesHaveWriters(docs: seq<Doc>, writers: map<string, nat>)
    requires IsWriters(docs, writers)
    ensures UsesFrom(docs, 0) != [] ==> |writers| > 0
  {
    var us := UsesFrom(docs, 0);
    if us != [] { assert us[0] in us && us[0].read.name in writers; }
  }

  lemma WritersCounted(docs: seq<Doc>, writers: map<string, nat>)
    requires IsWriters(docs, writers)
    ensures |writers| == |set d | d in docs && WrittenSecret(d).Some? :: WrittenSecret(d).value|
  {
    var names := set d | d in docs && WrittenSecret(d).Some? :: WrittenSecret(d).value;
    assert writers.Keys == names;
  }

  /** Where the pod of a document stands, by kind. */
  const POD_PATHS: map<string, seq<Hop>> := map[
    "Pod" := [Under("spec")],
    "CronJob" := [Under("spec"), Under("jobTemplate"), Under("spec"), Under("template"), Under("spec")],
    "Deployment" := [Under("spec"), Under("template"), Under("spec")],
    "StatefulSet" := [Under("spec"), Under("template"), Under("spec")],
    "DaemonSet" := [Under("spec"), Under("template"), Under("spec")],
    "ReplicaSet" := [Under("spec"), Under("template"), Under("spec")],
    "Job" := [Under("spec"), Under("template"), Under("spec")]]

  lemma UnderMore(v: Json, a: string, b: string, path: seq<Hop>, x: Json)
    requires !x.Null?
    ensures StandsAt(v, [Under(a), Under(b)] + path, x) <==> StandsAt(Field(At(AsRecord(v), a), b), path, x)
  {
    UnderIs(v, a, [Under(b)] + path, x);
    UnderIs(Field(AsRecord(v), a), b, path, x);
    assert [Under(a)] + ([Under(b)] + path) == [Under(a), Under(b)] + path;
  }

  /** The pod is the object at the path of the kind, and no other kind has one. */
  lemma PodIff(d: Doc, pod: map<string, Json>)
    ensures PodOf(d) == Some(pod) <==> d.kind in POD_PATHS && StandsAt(Obj(d.raw), POD_PATHS[d.kind], Obj(pod))
  {
    hide StandsAt;
    var raw, x := Obj(d.raw), Obj(pod);
    if d.kind == "CronJob" {
      UnderMore(raw, "spec", "jobTemplate", [Under("spec"), Under("template"), Under("spec")], x);
      var job := Field(At(AsRecord(raw), "spec"), "jobTemplate");
      UnderMore(job, "spec", "template", [Under("spec")], x);
      UnderTwo(Field(At(AsRecord(job), "spec"), "template"), "", "spec", x);
      assert [Under("spec"), Under("template")] + [Under("spec")] == [Under("spec"), Under("template"), Under("spec")];
      assert [Under("spec"), Under("jobTemplate")] + [Under("spec"), Under("template"), Under("spec")] == POD_PATHS["CronJob"];
    } else {
      UnderTwo(raw, "", "spec", x);
      UnderMore(raw, "spec", "template", [Under("spec")], x);
      UnderTwo(Field(At(AsRecord(raw), "spec"), "template"), "", "spec", x);
      assert [Under("spec"), Under("template")] + [Under("spec")] == [Under("spec"), Under("template"), Under("spec")];
    }
  }

  /** A document reads the Secrets its pod names. */
  lemma ReadsAre(d: Doc, name: string)
    ensures Names(ReadsOf(d), name) <==>
      (name != "" && d.kind in POD_PATHS && exists pod :: StandsAt(Obj(d.raw), POD_PATHS[d.kind], Obj(pod)) && PodNames(Obj(pod), name))
  {
    hide PodNames, SecretsOf;
    var pod := PodOf(d);
    if pod.Some? {
      PodIff(d, pod.value);
      SecretsAre(pod.value, name);
    }
    forall p | d.kind in POD_PATHS && StandsAt(Obj(d.raw), POD_PATHS[d.kind], Obj(p)) ensures pod == Some(p) { PodIff(d, p); }
  }

  /** A text that is there and not empty. */
  ghost predicate HasText(d: Doc, path: seq<Hop>, s: string) { s != "" && StandsAt(Obj(d.raw), path, Str(s)) }

  ghost predicate Writes(d: Doc, name: string) {
    if d.kind == "ServiceClaim" then
      || HasText(d, [Under("spec"), Under("secretName")], name)
      || ((forall s :: !HasText(d, [Under("spec"), Under("secretName")], s)) && d.name != ""
          && exists s :: HasText(d, [Under("spec"), Under("service")], s) && name == d.name + "-" + s)
    else if d.kind == "ExternalSecret" then
      || HasText(d, [Under("spec"), Under("target"), Under("name")], name)
      || ((forall s :: !HasText(d, [Under("spec"), Under("target"), Under("name")], s)) && d.name != "" && name == d.name)
    else
      false
  }

  /** The Secret written for a claim is the one it names, else `<claim>-<service>`; for an external secret its
      target's name, else its own; no other document has one written. */
  lemma WrittenIff(d: Doc, name: string)
    ensures WrittenSecret(d) == Some(name) <==> Writes(d, name)
  {
    hide StandsAt;
    var raw := Obj(d.raw);
    forall s ensures HasText(d, [Under("spec"), Under("secretName")], s) <==> AsText(Field(At(AsRecord(raw), "spec"), "secretName")) == Some(s) {
      UnderTwo(raw, "spec", "secretName", Str(s));
    }
    forall s ensures HasText(d, [Under("spec"), Under("service")], s) <==> AsText(Field(At(AsRecord(raw), "spec"), "service")) == Some(s) {
      UnderTwo(raw, "spec", "service", Str(s));
    }
    forall s ensures HasText(d, [Under("spec"), Under("target"), Under("name")], s) <==> AsText(Field(At(At(AsRecord(raw), "spec"), "target"), "name")) == Some(s) {
      UnderThree(raw, "spec", "target", "name", s);
    }
  }

  function AnnotationPath(key: string): seq<Hop> { [Under("metadata"), Under("annotations"), Under(key)] }

  lemma AnnotationIs(d: Doc, key: string, v: Json)
    requires !v.Null?
    ensures StandsAt(Obj(d.raw), AnnotationPath(key), v) <==> Annotation(d, key) == v
  {
    UnderMore(Obj(d.raw), "metadata", "annotations", [Under(key)], v);
    UnderTwo(Field(At(Some(d.raw), "metadata"), "annotations"), "", key, v);
    assert [Under("metadata"), Under("annotations")] + [Under(key)] == AnnotationPath(key);
  }

  /** The wave is the whole number of the annotation, written as a number or in digits with or without a sign. */
  ghost predicate WaveSays(v: Json, wave: int) {
    || v == Int(wave)
    || exists digits :: digits != "" && AllDigits(digits)
        && ((v in {Str(digits), Str("+" + digits)} && wave == Value(digits)) || (v == Str("-" + digits) && wave == -(Value(digits) as int)))
  }

  lemma WaveSaysIff(v: Json, wave: int)
    ensures WaveSays(v, wave) <==>
      || (v.Int? && wave == v.n)
      || (v.Str? && IsInteger(v.s) && wave == if v.s[0] == '-' then -(Value(v.s[1..]) as int) else if v.s[0] == '+' then Value(v.s[1..]) else Value(v.s))
  {
    if v.Str? {
      forall digits: string ensures ("+" + digits)[1..] == digits && ("-" + digits)[1..] == digits {}
      if IsInteger(v.s) {
        if v.s[0] == '-' || v.s[0] == '+' { assert v.s == [v.s[0]] + v.s[1..]; }
      }
    }
  }

  lemma WaveIff(d: Doc, wave: int)
    ensures var at := AnnotationPath("argocd.argoproj.io/sync-wave");
      WaveOf(d) == wave <==>
        || (exists v :: StandsAt(Obj(d.raw), at, v) && WaveSays(v, wave))
        || (wave == 0 && forall v, w :: StandsAt(Obj(d.raw), at, v) ==> !WaveSays(v, w))
  {
    hide StandsAt, WaveSays;
    var at, v := AnnotationPath("argocd.argoproj.io/sync-wave"), Annotation(d, "argocd.argoproj.io/sync-wave");
    forall x, w | StandsAt(Obj(d.raw), at, x) && WaveSays(x, w) ensures x == v {
      WaveSaysIff(x, w);
      AnnotationIs(d, "argocd.argoproj.io/sync-wave", x);
    }
    forall w ensures WaveSays(v, w) <==> WaveOf(d) == w && (v.Int? || (v.Str? && IsInteger(v.s))) { WaveSaysIff(v, w); }
    if !v.Null? {
      AnnotationIs(d, "argocd.argoproj.io/sync-wave", v);
      assert v.Int? || (v.Str? && IsInteger(v.s)) ==> WaveSays(v, WaveOf(d));
    }
  }

  /** `text` is `name` with blanks around it. */
  ghost predicate IsPadded(text: string, name: string) {
    && (name != "" ==> !IsSpace(name[0]) && !IsSpace(name[|name| - 1]))
    && exists a, b :: Blank(a) && Blank(b) && text == a + name + b
  }

  lemma PaddedTrims(text: string, name: string)
    requires IsPadded(text, name)
    ensures Trim(text) == name
  {
    var a, b :| Blank(a) && Blank(b) && text == a + name + b;
    TrimIs(a, name, b);
  }

  lemma PhasesAre(d: Doc, texts: seq<string>, names: seq<string>)
    requires |texts| == |names| > 0 && forall k :: 0 <= k < |texts| ==> ',' !in texts[k] && IsPadded(texts[k], names[k])
    requires StandsAt(Obj(d.raw), AnnotationPath("argocd.argoproj.io/hook"), Str(Join(texts, ',')))
    ensures HookPhases(d) == names
  {
    hide IsPadded, Join, Split, Trim, StandsAt, Annotation;
    AnnotationIs(d, "argocd.argoproj.io/hook", Str(Join(texts, ',')));
    SplitJoin(texts, ',');
    forall k | 0 <= k < |texts| ensures Trim(texts[k]) == names[k] { PaddedTrims(texts[k], names[k]); }
  }

  /** A document whose hook annotation lists these phases, between commas and with blanks around them, is skipped
      if `Skip` is one of them, runs before every wave if `PreSync` is, and after every wave if all of them do. */
  lemma HooksAre(d: Doc, texts: seq<string>, names: seq<string>)
    requires |texts| == |names| > 0 && forall k :: 0 <= k < |texts| ==> ',' !in texts[k] && IsPadded(texts[k], names[k])
    requires StandsAt(Obj(d.raw), AnnotationPath("argocd.argoproj.io/hook"), Str(Join(texts, ',')))
    ensures IsSkipped(d) <==> "Skip" in names
    ensures RunsFirst(d) <==> "PreSync" in names
    ensures RunsLast(d) <==> forall n :: n in names ==> n == "PostSync" || n == "SyncFail" || n == "PostDelete"
  {
    hide HookPhases, IsPadded, Join, StandsAt;
    PhasesAre(d, texts, names);
  }

  /** Without a text there the document is no hook. */
  lemma NoHook(d: Doc)
    requires forall s :: !StandsAt(Obj(d.raw), AnnotationPath("argocd.argoproj.io/hook"), Str(s))
    ensures !IsSkipped(d) && !RunsFirst(d) && !RunsLast(d)
  {
    var v := Annotation(d, "argocd.argoproj.io/hook");
    if v.Str? { AnnotationIs(d, "argocd.argoproj.io/hook", v); }
  }

  // ---------------------------------------------------------------- the phased scheduler

  /** 0: before every wave, 1: in its wave, 2: after every wave. */
  function Phase(d: Doc): int { if RunsFirst(d) then 0 else if RunsLast(d) then 2 else 1 }

  /** One sync of the documents: when each is applied and when it is healthy. */
  datatype Sync = Sync(start: int -> int, healthy: int -> int)

  predicate InEarlierGroup(a: Doc, b: Doc) {
    Phase(a) < Phase(b) || (Phase(a) == Phase(b) && WaveOf(a) < WaveOf(b))
  }

  /** The scheduler applies a group, a wave of a phase, once every document of the groups before it is
      healthy; a skipped document is never applied. */
  ghost predicate IsSync(docs: seq<Doc>, s: Sync) {
    && (forall i :: 0 <= i < |docs| && !IsSkipped(docs[i]) ==> s.start(i) <= s.healthy(i))
    && (forall i, j :: 0 <= i < |docs| && 0 <= j < |docs| && !IsSkipped(docs[i]) && !IsSkipped(docs[j]) && InEarlierGroup(docs[i], docs[j])
          ==> s.healthy(i) < s.start(j))
  }

  /** No controller's object is a hook. */
  ghost predicate WritersAreNoHooks(docs: seq<Doc>) {
    forall d :: d in docs && WrittenSecret(d).Some? ==> HookPhases(d) == []
  }

  /** In this sync every pod starts after each written Secret it names is there: its writer is healthy. */
  ghost predicate PodsWait(docs: seq<Doc>, s: Sync) {
    forall i, x :: 0 <= i < |docs| && !IsSkipped(docs[i]) && x in ReadsOf(docs[i]) && WriterOf(docs, x.name).Some?
      ==> s.healthy(WriterOf(docs, x.name).value) < s.start(i)
  }

  /** Soundness: if the reading finds no breach, every pod of every sync waits for its Secrets. */
  lemma NoBreachIsSound(docs: seq<Doc>, r: Reading, s: Sync)
    requires Says(docs, r) && r.breach.None? && WritersAreNoHooks(docs) && IsSync(docs, s)
    ensures PodsWait(docs, s)
  {
    forall i, x | 0 <= i < |docs| && !IsSkipped(docs[i]) && x in ReadsOf(docs[i]) && WriterOf(docs, x.name).Some?
      ensures s.healthy(WriterOf(docs, x.name).value) < s.start(i)
    {
      var w := WriterOf(docs, x.name).value;
      assert HookPhases(docs[w]) == [] && docs[w] in docs;
      if !RunsLast(docs[i]) {
        assert Use(i, x, w) in UsesFrom(docs, 0);
      } else {
        LastIsNotFirst(docs[i]);
      }
      assert InEarlierGroup(docs[w], docs[i]);
    }
  }

  lemma LastIsNotFirst(d: Doc)
    requires RunsLast(d)
    ensures !RunsFirst(d)
  {
  }

  /** A bound on the wave numbers. */
  function Widest(docs: seq<Doc>): (b: nat)
    ensures forall d :: d in docs ==> 0 <= WaveOf(d) + b && WaveOf(d) <= b
  {
    if docs == [] then 0 else
      var rest, w := Widest(docs[1..]), WaveOf(docs[0]);
      assert docs == [docs[0]] + docs[1..];
      if w > rest then w else if -w > rest then -w else rest
  }

  /** A number that orders the groups. */
  function Key(docs: seq<Doc>, i: int): int
    requires 0 <= i < |docs|
  {
    Phase(docs[i]) * (2 * Widest(docs) + 1) + WaveOf(docs[i])
  }

  lemma KeyOrders(docs: seq<Doc>, i: int, j: int)
    requires 0 <= i < |docs| && 0 <= j < |docs|
    ensures InEarlierGroup(docs[i], docs[j]) <==> Key(docs, i) < Key(docs, j)
  {
    var m := 2 * Widest(docs) + 1;
    assert docs[i] in docs && docs[j] in docs;
    assert forall p: int :: 0 <= p <= 2 ==> p * m == if p == 0 then 0 else if p == 1 then m else 2 * m;
  }

  /** The sync in which every group takes the least time. */
  function Tight(docs: seq<Doc>): Sync {
    Sync((i: int) => if 0 <= i < |docs| then 2 * Key(docs, i) else 0, (i: int) => if 0 <= i < |docs| then 2 * Key(docs, i) + 1 else 0)
  }

  lemma TightIsSync(docs: seq<Doc>)
    ensures IsSync(docs, Tight(docs))
  {
    forall i, j | 0 <= i < |docs| && 0 <= j < |docs| && InEarlierGroup(docs[i], docs[j])
      ensures Tight(docs).healthy(i) < Tight(docs).start(j)
    {
      KeyOrders(docs, i, j);
    }
  }

  /** Completeness: if the reading finds a breach, there is a sync in which that pod starts before the Secret
      it names is there, whoever writes it. */
  lemma BreachIsReal(docs: seq<Doc>, r: Reading) returns (s: Sync)
    requires Says(docs, r) && r.breach.Some? && WritersAreNoHooks(docs)
    requires forall k :: 0 <= k < |docs| && WrittenSecret(docs[k]) == Some(r.breach.value.read.name) ==> k == r.breach.value.owner
    ensures IsSync(docs, s)
    ensures var b := r.breach.value;
      && b.doc < |docs| && !IsSkipped(docs[b.doc]) && b.read in ReadsOf(docs[b.doc])
      && (forall k :: 0 <= k < |docs| && WrittenSecret(docs[k]) == Some(b.read.name) ==> s.start(b.doc) < s.healthy(k))
  {
    var b := r.breach.value;
    s := Tight(docs);
    TightIsSync(docs);
    assert b in UsesFrom(docs, 0);
    assert WrittenSecret(docs[b.owner]).Some? && docs[b.owner] in docs;
    EarlyIsNoLater(docs, b);
    KeyOrders(docs, b.owner, b.doc);
  }

  lemma EarlyIsNoLater(docs: seq<Doc>, u: Use)
    requires u.doc < |docs| && u.owner < |docs| && IsJudged(docs[u.doc]) && IsEarly(docs, u) && HookPhases(docs[u.owner]) == []
    ensures !InEarlierGroup(docs[u.owner], docs[u.doc])
  {
  }

  /** The check decides the question: no breach exactly when every pod of every sync waits. */
  lemma NoBreachIffPodsWait(docs: seq<Doc>, r: Reading)
    requires Says(docs, r) && WritersAreNoHooks(docs)
    requires forall i, j :: 0 <= i < |docs| && 0 <= j < |docs| && WrittenSecret(docs[i]).Some? && WrittenSecret(docs[i]) == WrittenSecret(docs[j]) ==> i == j
    ensures r.breach.None? <==> forall s :: IsSync(docs, s) ==> PodsWait(docs, s)
  {
    if r.breach.None? {
      forall s | IsSync(docs, s) ensures PodsWait(docs, s) { NoBreachIsSound(docs, r, s); }
    } else {
      var b := r.breach.value;
      assert b in UsesFrom(docs, 0);
      var s := BreachIsReal(docs, r);
      assert WriterOf(docs, b.read.name) == Some(b.owner);
      assert !PodsWait(docs, s);
    }
  }
}
