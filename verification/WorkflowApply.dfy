/** `wf_apply` and `wf_remove` (`pkg/tools/deploy.go`): create or update every manifest under a
    release label, then delete what carries the label but was not applied. */
module WorkflowApply {
  import opened Wrappers
  import opened Json
  import opened Psa
  import opened PsaValidation

  /** A resource type; the version plays no part in `resourceKey` nor in storage. */
  datatype Gvr = Gvr(group: string, resource: string)

  /** A resource of the target namespace. */
  datatype Key = Key(gvr: Gvr, name: string)

  type Store = map<Key, Json>

  const RELEASE_LABEL := "tentacular.io/release"

  const ALLOWED_KINDS: set<string> :=
    {"Deployment", "Service", "PersistentVolumeClaim", "NetworkPolicy", "ConfigMap", "Secret", "Job", "CronJob",
        "Ingress"}

  const KNOWN_GVRS: seq<Gvr> := [
    Gvr("apps", "deployments"), Gvr("", "services"), Gvr("", "configmaps"), Gvr("", "secrets"),
    Gvr("batch", "jobs"), Gvr("batch", "cronjobs"), Gvr("networking.k8s.io", "networkpolicies"),
    Gvr("networking.k8s.io", "ingresses"), Gvr("", "persistentvolumeclaims")]

  /** The answers of the API server during one call. */
  datatype Env = Env(
    managed: bool, level: Option<string>, discovery: map<(string, string), Gvr>,
    getFails: set<nat>, writeFails: set<nat>, listFails: set<Gvr>, deleteFails: set<Key>)

  datatype ApplyError =
    | NotManaged | NoLevel | PsaViolations(vs: seq<Violation>) | MissingKind | KindNotAllowed | Unresolved
    | MissingName | GetFailed | WriteFailed

  // ----- keys and labels -----

  /** `resourceKey`. */
  function KeyText(k: Key): string {
    k.gvr.group + "/" + k.gvr.resource + "/" + k.name
  }

  predicate SlashFree(g: Gvr) {
    '/' !in g.group && '/' !in g.resource
  }

  function ApiVersionOf(m: Json): string {
    match Lookup(m, ["apiVersion"])
    case Some(Str(s)) => s
    case _ => ""
  }

  /** `GetLabels`: a map of strings, or nothing. */
  function LabelsOf(m: Json): map<string, Json> {
    match Lookup(m, ["metadata", "labels"])
    case Some(Obj(f)) => if forall k <- f :: f[k].Str? then f else map[]
    case _ => map[]
  }

  predicate Labelled(m: Json, release: string) {
    RELEASE_LABEL in LabelsOf(m) && LabelsOf(m)[RELEASE_LABEL] == Str(release)
  }

  /** The object sent to the server: the manifest in the target namespace with the release label. */
  function Prepared(m: Json, ns: string, release: string): Json {
    var placed := SetNested(m, Str(ns), ["metadata", "namespace"]);
    SetNested(placed, Obj(LabelsOf(placed)[RELEASE_LABEL := Str(release)]), ["metadata", "labels"])
  }

  function LabelledKeys(s: Store, release: string): set<Key> {
    set k | k in s && Labelled(s[k], release)
  }

  // ----- the apply loop -----

  function Target(m: Json, d: map<(string, string), Gvr>): Result<Key, ApplyError> {
    if ApiVersionOf(m) == "" || KindOf(m) == "" then Err(MissingKind)
    else if KindOf(m) !in ALLOWED_KINDS then Err(KindNotAllowed)
    else if (ApiVersionOf(m), KindOf(m)) !in d then Err(Unresolved)
    else if NameOf(m) == "" then Err(MissingName)
    else Ok(Key(d[(ApiVersionOf(m), KindOf(m))], NameOf(m)))
  }

  datatype Progress = Progress(store: Store, applied: set<string>, created: nat, updated: nat, err: Option<ApplyError>)

  function ApplyOne(p: Progress, m: Json, i: nat, ns: string, release: string, env: Env): Progress {
    var t := Target(m, env.discovery);
    if t.Err? then p.(err := Some(t.error))
    else
      var k := t.value;
      var q := p.(applied := p.applied + {KeyText(k)});
      if i in env.getFails then q.(err := Some(GetFailed))
      else if i in env.writeFails then q.(err := Some(WriteFailed))
      else
        var stored := q.store[k := Prepared(m, ns, release)];
        if k in q.store then q.(store := stored, updated := q.updated + 1)
        else q.(store := stored, created := q.created + 1)
  }

  function ApplyAll(s: Store, ms: seq<Json>, ns: string, release: string, env: Env): Progress {
    if ms == [] then Progress(s, {}, 0, 0, None)
    else
      var p := ApplyAll(s, ms[..|ms| - 1], ns, release, env);
      if p.err.Some? then p else ApplyOne(p, ms[|ms| - 1], |ms| - 1, ns, release, env)
  }

  /** What garbage collection may delete: listed, labelled, not applied, and deletable. */
  predicate Doomed(s: Store, k: Key, release: string, keep: set<string>, env: Env)
    requires k in s
  {
    Labelled(s[k], release) && k.gvr !in env.listFails && KeyText(k) !in keep && k !in env.deleteFails
  }

  function GarbageOf(s: Store, gs: seq<Gvr>, release: string, keep: set<string>, env: Env): set<Key> {
    set k | k in s && k.gvr in gs && Doomed(s, k, release, keep, env)
  }

  function Garbage(s: Store, release: string, keep: set<string>, env: Env): set<Key> {
    GarbageOf(s, KNOWN_GVRS, release, keep, env)
  }

  lemma GarbageStep(s: Store, gs: seq<Gvr>, g: Gvr, release: string, keep: set<string>, env: Env)
    requires g !in gs
    ensures var done := GarbageOf(s, gs, release, keep, env);
            var next := GarbageOf(s - done, [g], release, keep, env);
            && GarbageOf(s, gs + [g], release, keep, env) == done + next
            && |done + next| == |done| + |next|
            && (s - done) - next == s - (done + next)
  {
    hide Labelled, KeyText;
    var done := GarbageOf(s, gs, release, keep, env);
    var next := GarbageOf(s - done, [g], release, keep, env);
    assert done !! next;
    forall k | k in s ensures k in GarbageOf(s, gs + [g], release, keep, env) <==> k in done + next {
    }
  }

  function HardenEach(ms: seq<Json>): seq<Json> {
    seq(|ms|, i requires 0 <= i < |ms| => Harden(ms[i]))
  }

  predicate SkipsPsa(level: string) {
    level == "" || level == "privileged"
  }

  datatype Outcome = Outcome(store: Store, result: Result<Counts, ApplyError>)
  datatype Counts = Counts(created: nat, updated: nat, deleted: nat)

  /** The whole of `handleWorkflowApply`. */
  function Apply(s: Store, ms: seq<Json>, ns: string, release: string, env: Env): Outcome {
    if !env.managed then Outcome(s, Err(NotManaged))
    else if env.level.None? then Outcome(s, Err(NoLevel))
    else
      var hs := HardenEach(ms);
      if !SkipsPsa(env.level.value) && AllViolations(hs) != [] then
        Outcome(s, Err(PsaViolations(AllViolations(hs))))
      else
        var p := ApplyAll(s, hs, ns, release, env);
        if p.err.Some? then Outcome(p.store, Err(p.err.value))
        else
          var g := Garbage(p.store, release, p.applied, env);
          Outcome(p.store - g, Ok(Counts(p.created, p.updated, |g|)))
  }

  /** The whole of `handleWorkflowRemove`. */
  function Remove(s: Store, release: string, env: Env): Outcome {
    if !env.managed then Outcome(s, Err(NotManaged))
    else
      var g := Garbage(s, release, {}, env);
      Outcome(s - g, Ok(Counts(0, 0, |g|)))
  }

  // ----- the methods -----

  class Cluster {
    var store: Store

    constructor (s: Store)
      ensures store == s
    {
      store := s;
    }

    /** Deletes the garbage of one resource type, in whatever order the server lists it. */
    method CollectType(g: Gvr, release: string, keep: set<string>, env: Env) returns (deleted: nat)
      modifies this
      ensures store == old(store) - GarbageOf(old(store), [g], release, keep, env)
      ensures deleted == |GarbageOf(old(store), [g], release, keep, env)|
    {
      hide Labelled, KeyText, GarbageOf;
      deleted := 0;
      var s := store;
      ghost var gone: set<Key> := {};
      assert s - gone == s;
      if g in env.listFails {
        NothingListed(s, g, release, keep, env);
        return;
      }
      var items := set k | k in s && k.gvr == g && Labelled(s[k], release);
      ListedGarbage(s, g, items, release, keep, env);
      ghost var all := GarbageOf(s, [g], release, keep, env);
      while items != {}
        invariant gone == all - items
        invariant forall k <- items :: k in all <==> KeyText(k) !in keep && k !in env.deleteFails
        invariant store == s - gone && deleted == |gone|
        decreases items
      {
        var k :| k in items;
        items := items - {k};
        if KeyText(k) !in keep && k !in env.deleteFails {
          MinusStep(s, gone, k);
          store := store - {k};
          deleted := deleted + 1;
          gone := gone + {k};
        }
      }
    }

    /** The loop over the known resource types. */
    method Collect(release: string, keep: set<string>, env: Env) returns (deleted: nat)
      modifies this
      ensures store == old(store) - Garbage(old(store), release, keep, env)
      ensures deleted == |Garbage(old(store), release, keep, env)|
    {
      hide GarbageOf;
      deleted := 0;
      ghost var s := store;
      NoTypes(s, release, keep, env);
      var i := 0;
      while i < |KNOWN_GVRS|
        invariant 0 <= i <= |KNOWN_GVRS|
        invariant store == s - GarbageOf(s, KNOWN_GVRS[..i], release, keep, env)
        invariant deleted == |GarbageOf(s, KNOWN_GVRS[..i], release, keep, env)|
      {
        KnownDistinct(i);
        GarbageStep(s, KNOWN_GVRS[..i], KNOWN_GVRS[i], release, keep, env);
        PrefixSnoc(i);
        var n := CollectType(KNOWN_GVRS[i], release, keep, env);
        deleted := deleted + n;
        i := i + 1;
      }
      assert KNOWN_GVRS[..|KNOWN_GVRS|] == KNOWN_GVRS;
    }

    method HandleWorkflowApply(ms: seq<Json>, ns: string, release: string, env: Env)
        returns (r: Result<Counts, ApplyError>)
      modifies this
      ensures Outcome(store, r) == Apply(old(store), ms, ns, release, env)
    {
      hide GarbageOf, AllViolations, Harden, Prepared;
      if !env.managed {
        return Err(NotManaged);
      }
      var hs := EnsurePSACompliance(ms);
      assert hs == HardenEach(ms);
      if env.level.None? {
        return Err(NoLevel);
      }
      var vs := ValidatePSA(env.level.value, hs);
      if vs != [] {
        return Err(PsaViolations(vs));
      }
      var created, updated := 0, 0;
      var applied: set<string> := {};
      for i := 0 to |hs|
        invariant Progress(store, applied, created, updated, None) == ApplyAll(old(store), hs[..i], ns, release, env)
      {
        assert hs[..i + 1][..i] == hs[..i];
        ghost var p := Progress(store, applied, created, updated, None);
        assert ApplyAll(old(store), hs[..i + 1], ns, release, env) == ApplyOne(p, hs[i], i, ns, release, env);
        AppliedFails(old(store), hs, ns, release, env, i + 1);
        var t := Target(hs[i], env.discovery);
        if t.Err? {
          return Err(t.error);
        }
        var k := t.value;
        applied := applied + {KeyText(k)};
        if i in env.getFails {
          return Err(GetFailed);
        }
        if i in env.writeFails {
          return Err(WriteFailed);
        }
        if k in store {
          updated := updated + 1;
        } else {
          created := created + 1;
        }
        store := store[k := Prepared(hs[i], ns, release)];
      }
      assert hs[..|hs|] == hs;
      var deleted := Collect(release, applied, env);
      return Ok(Counts(created, updated, deleted));
    }

    method HandleWorkflowRemove(release: string, env: Env) returns (r: Result<Counts, ApplyError>)
      modifies this
      ensures Outcome(store, r) == Remove(old(store), release, env)
    {
      if !env.managed {
        return Err(NotManaged);
      }
      var deleted := Collect(release, {}, env);
      return Ok(Counts(0, 0, deleted));
    }
  }

  lemma NothingListed(s: Store, g: Gvr, release: string, keep: set<string>, env: Env)
    requires g in env.listFails
    ensures GarbageOf(s, [g], release, keep, env) == {}
  {
  }

  lemma NoTypes(s: Store, release: string, keep: set<string>, env: Env)
    ensures GarbageOf(s, KNOWN_GVRS[..0], release, keep, env) == {}
    ensures s - {} == s
  {
  }

  lemma ListedGarbage(s: Store, g: Gvr, items: set<Key>, release: string, keep: set<string>, env: Env)
    requires g !in env.listFails
    requires items == set k | k in s && k.gvr == g && Labelled(s[k], release)
    ensures GarbageOf(s, [g], release, keep, env) <= items
    ensures forall k <- items :: k in GarbageOf(s, [g], release, keep, env) <==>
              KeyText(k) !in keep && k !in env.deleteFails
  {
    hide Labelled, KeyText;
  }

  lemma MinusStep(s: Store, gone: set<Key>, k: Key)
    ensures (s - gone) - {k} == s - (gone + {k})
  {
  }

  lemma PrefixSnoc(i: nat)
    requires i < |KNOWN_GVRS|
    ensures KNOWN_GVRS[..i + 1] == KNOWN_GVRS[..i] + [KNOWN_GVRS[i]]
  {
  }

  lemma KnownDistinct(i: nat)
    requires i < |KNOWN_GVRS|
    ensures KNOWN_GVRS[i] !in KNOWN_GVRS[..i]
  {
    assert |"deployments"| == 11 && |"services"| == 8 && |"configmaps"| == 10 && |"secrets"| == 7 && |"jobs"| == 4 &&
           |"cronjobs"| == 8 && |"networkpolicies"| == 15 && |"ingresses"| == 9 && |"persistentvolumeclaims"| == 22;
    assert "services"[0] == 's' && "cronjobs"[0] == 'c';
  }

  lemma {:induction false} AppliedFails(s: Store, ms: seq<Json>, ns: string, release: string, env: Env, n: nat)
    requires n <= |ms|
    ensures ApplyAll(s, ms[..n], ns, release, env).err.Some? ==>
              ApplyAll(s, ms, ns, release, env) == ApplyAll(s, ms[..n], ns, release, env)
  {
    if n < |ms| {
      var i := |ms| - 1;
      assert ms[..i][..n] == ms[..n];
      AppliedFails(s, ms[..i], ns, release, env, n);
    } else {
      assert ms[..n] == ms;
    }
  }
}
