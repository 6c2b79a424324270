/** Which calls of `wf_apply` and `wf_remove` are accepted, where an apply stops, and what it stores,
    with kinds, fields and label spelled out. */
module ApplyAcceptance {
  import opened Wrappers
  import opened Json
  import opened Psa
  import opened PsaValidation
  import opened WorkflowApply
  import AP = ApplyProperties

  /** A text field that is there and not empty. */
  predicate Filled(m: Json, path: Path) {
    Lookup(m, path).Some? && Lookup(m, path).value.Str? && Lookup(m, path).value.s != ""
  }

  function TextAt(m: Json, path: Path): string
    requires Filled(m, path)
  {
    Lookup(m, path).value.s
  }

  predicate PermittedKind(kind: string) {
    || kind == "Deployment" || kind == "Service" || kind == "PersistentVolumeClaim" || kind == "NetworkPolicy"
    || kind == "ConfigMap" || kind == "Secret" || kind == "Job" || kind == "CronJob" || kind == "Ingress"
  }

  /** What is wrong with a manifest, in the order in which it is noticed. */
  function Problem(m: Json, d: map<(string, string), Gvr>): Option<ApplyError> {
    if !Filled(m, ["apiVersion"]) || !Filled(m, ["kind"]) then Some(MissingKind)
    else if !PermittedKind(TextAt(m, ["kind"])) then Some(KindNotAllowed)
    else if (TextAt(m, ["apiVersion"]), TextAt(m, ["kind"])) !in d then Some(Unresolved)
    else if !Filled(m, ["metadata", "name"]) then Some(MissingName)
    else None
  }

  /** What ends the loop at manifest `i`: a problem of its own, or a failed request. */
  function Stop(m: Json, i: nat, env: Env): Option<ApplyError> {
    if Problem(m, env.discovery).Some? then Problem(m, env.discovery)
    else if i in env.getFails then Some(GetFailed)
    else if i in env.writeFails then Some(WriteFailed)
    else None
  }

  function KeyOf(m: Json, d: map<(string, string), Gvr>): Key
    requires Problem(m, d).None?
  {
    Key(d[(TextAt(m, ["apiVersion"]), TextAt(m, ["kind"]))], TextAt(m, ["metadata", "name"]))
  }

  lemma TargetSpelled(m: Json, d: map<(string, string), Gvr>)
    ensures Target(m, d) == match Problem(m, d)
                            case Some(e) => Err(e)
                            case None => Ok(KeyOf(m, d))
  {
    hide Lookup;
    NineKinds(KindOf(m));
  }

  lemma NineKinds(kind: string)
    ensures kind in ALLOWED_KINDS <==> PermittedKind(kind)
  {
  }

  /** Hardening does not change what a manifest is. */
  lemma ProblemKept(m: Json, d: map<(string, string), Gvr>)
    ensures Problem(Harden(m), d) == Problem(m, d)
    ensures Problem(m, d).None? ==> KeyOf(Harden(m), d) == KeyOf(m, d)
  {
    hide HardenPodSpec, Lookup, PermittedKind;
    var base := PodBase(KindOf(m));
    if base.Some? {
      HeaderAside(m, base.value, ["kind"]);
      HeaderAside(m, base.value, ["metadata", "name"]);
      HeaderAside(m, base.value, ["apiVersion"]);
    }
  }

  lemma OneStops(p: Progress, m: Json, i: nat, ns: string, release: string, env: Env)
    requires p.err.None?
    ensures ApplyOne(p, Harden(m), i, ns, release, env).err == Stop(m, i, env)
  {
    hide Harden, Target, Prepared, KeyText, Problem;
    TargetSpelled(Harden(m), env.discovery);
    ProblemKept(m, env.discovery);
  }

  /** The loop ends at the first manifest with a stop, with that error, having written those before. */
  lemma {:induction false} LoopStops(s: Store, ms: seq<Json>, ns: string, release: string, env: Env) returns (k: nat)
    ensures k <= |ms| && forall j :: 0 <= j < k ==> Stop(ms[j], j, env).None?
    ensures var p := ApplyAll(s, HardenEach(ms), ns, release, env);
            && p.err == (if k < |ms| then Stop(ms[k], k, env) else None)
            && (k < |ms| ==> p.err.Some?)
            && p.created + p.updated == k
  {
    hide ApplyOne, Stop, Harden;
    k := 0;
    if ms != [] {
      var n := |ms| - 1;
      k := LoopStops(s, ms[..n], ns, release, env);
      HardenPrefix(ms, n);
      var q := ApplyAll(s, HardenEach(ms[..n]), ns, release, env);
      if k == n {
        OneStops(q, ms[n], n, ns, release, env);
        AP.OneWrite(q, Harden(ms[n]), n, ns, release, env);
        if Stop(ms[n], n, env).None? { k := n + 1; }
      }
    }
  }

  lemma HardenPrefix(ms: seq<Json>, n: nat)
    requires n < |ms|
    ensures |HardenEach(ms)| == |ms| && HardenEach(ms)[..n] == HardenEach(ms[..n]) && HardenEach(ms)[n] == Harden(ms[n])
  {
    hide Harden;
  }

  predicate Validated(ms: seq<Json>, level: string) {
    level == "" || level == "privileged" || AllFaults(ms) == []
  }

  /** Exactly which applies succeed: in a managed namespace whose level can be read, with manifests
      that pass outside a privileged one, each with an apiVersion, one of the nine kinds, a
      discovered type and a name, and no failed request. */
  lemma ApplyAccepted(s: Store, ms: seq<Json>, ns: string, release: string, env: Env)
    ensures Apply(s, ms, ns, release, env).result.Ok? <==>
              && env.managed && env.level.Some? && Validated(ms, env.level.value)
              && forall i :: 0 <= i < |ms| ==> Stop(ms[i], i, env).None?
  {
    hide HardenEach, ApplyAll, Garbage, AllViolations, AllFaults, Stop, Harden;
    HardenedAll(ms);
    var k := LoopStops(s, ms, ns, release, env);
  }

  lemma HardenedAll(ms: seq<Json>)
    ensures AllViolations(HardenEach(ms)) == AllFaults(ms)
  {
    hide AllViolations, AllFaults, Harden;
    HardenedAllViolations(ms, HardenEach(ms));
  }

  /** Where an apply ends that is not refused at the door: at the first manifest with a stop, with
      that error; the manifests before it are written, and nothing is deleted. */
  lemma ApplyStops(s: Store, ms: seq<Json>, ns: string, release: string, env: Env) returns (k: nat)
    requires env.managed && env.level.Some? && Validated(ms, env.level.value)
    requires Apply(s, ms, ns, release, env).result.Err?
    ensures k < |ms| && (forall j :: 0 <= j < k ==> Stop(ms[j], j, env).None?)
    ensures Stop(ms[k], k, env) == Some(Apply(s, ms, ns, release, env).result.error)
    ensures |HardenEach(ms)| == |ms|
    ensures Apply(s, ms, ns, release, env).store == s + AP.Writes(HardenEach(ms)[..k], ns, release, env)
  {
    hide HardenEach, ApplyAll, Garbage, AllViolations, AllFaults, Stop, Harden, AP.Writes;
    HardenedAll(ms);
    AP.HardenLength(ms);
    k := LoopStops(s, ms, ns, release, env);
    AP.ApplyWrites(s, HardenEach(ms), ns, release, env);
  }

  /** The calls refused at the door leave the cluster alone. */
  lemma ApplyRefused(s: Store, ms: seq<Json>, ns: string, release: string, env: Env)
    ensures !env.managed ==> Apply(s, ms, ns, release, env) == Outcome(s, Err(NotManaged))
    ensures env.managed && env.level.None? ==> Apply(s, ms, ns, release, env) == Outcome(s, Err(NoLevel))
    ensures env.managed && env.level.Some? && !Validated(ms, env.level.value) ==>
              Apply(s, ms, ns, release, env) == Outcome(s, Err(PsaViolations(AllFaults(ms))))
    ensures !env.managed ==> Remove(s, release, env) == Outcome(s, Err(NotManaged))
    ensures env.managed ==> Remove(s, release, env).result.Ok?
  {
    hide HardenEach, ApplyAll, Garbage, AllViolations, AllFaults;
    HardenedAll(ms);
  }

  // ----- what is stored -----

  /** An object as it is sent: the manifest, in the namespace, with the release among its labels. */
  ghost predicate SentAs(m: Json, x: Json, ns: string, release: string) {
    && Lookup(x, ["metadata", "namespace"]) == Some(Str(ns))
    && LabelsOf(x) == LabelsOf(m)["tentacular.io/release" := Str(release)]
    && forall q: Path :: Independent(["metadata", "namespace"], q) && Independent(["metadata", "labels"], q) ==>
         Lookup(x, q) == Lookup(m, q)
  }

  lemma PreparedIsSent(m: Json, ns: string, release: string)
    requires NameOf(m) != ""
    ensures SentAs(m, Prepared(m, ns, release), ns, release)
  {
    hide Prepared, Lookup, Independent, NameOf, LabelsOf;
    AP.PreparedKeeps(m, ns, release, ["metadata", "namespace"]);
    forall q: Path | Independent(["metadata", "namespace"], q) && Independent(["metadata", "labels"], q)
      ensures Lookup(Prepared(m, ns, release), q) == Lookup(m, q)
    {
      AP.PreparedKeeps(m, ns, release, q);
    }
  }

  lemma {:induction false} LastWrite(hs: seq<Json>, i: nat, ns: string, release: string, env: Env)
    requires i < |hs| && Problem(hs[i], env.discovery).None?
    requires forall j :: i < j < |hs| ==> Target(hs[j], env.discovery) != Target(hs[i], env.discovery)
    ensures var w := AP.Writes(hs, ns, release, env);
            var k := KeyOf(hs[i], env.discovery);
            k in w && w[k] == Prepared(hs[i], ns, release)
  {
    hide Prepared, Target, Problem, KeyOf;
    TargetSpelled(hs[i], env.discovery);
    if i < |hs| - 1 {
      LastWrite(hs[..|hs| - 1], i, ns, release, env);
    }
  }

  /** After a successful apply each manifest is stored under its discovered type and its name, as
      it was hardened and sent, unless a later manifest has the same key. */
  lemma ApplyStores(s: Store, ms: seq<Json>, ns: string, release: string, env: Env, i: nat)
    requires Apply(s, ms, ns, release, env).result.Ok? && i < |ms|
    requires forall d <- env.discovery :: SlashFree(env.discovery[d])
    ensures Problem(ms[i], env.discovery).None?
    ensures (forall j :: i < j < |ms| && Problem(ms[j], env.discovery).None? ==>
               KeyOf(ms[j], env.discovery) != KeyOf(ms[i], env.discovery)) ==>
              var o := Apply(s, ms, ns, release, env).store;
              var k := KeyOf(ms[i], env.discovery);
              k in o && SentAs(Harden(ms[i]), o[k], ns, release)
  {
    hide Apply, HardenEach, Prepared, Target, Problem, KeyOf, Harden, SentAs, NameOf, AP.Writes, Labelled;
    ApplyAccepted(s, ms, ns, release, env);
    assert Stop(ms[i], i, env).None?;
    var hs := HardenEach(ms);
    HardenPrefix(ms, i);
    forall j | 0 <= j < |ms|
      ensures hs[j] == Harden(ms[j]) && Problem(hs[j], env.discovery) == Problem(ms[j], env.discovery)
      ensures Problem(ms[j], env.discovery).None? ==> KeyOf(hs[j], env.discovery) == KeyOf(ms[j], env.discovery)
    {
      HardenPrefix(ms, j);
      ProblemKept(ms[j], env.discovery);
    }
    if forall j :: i < j < |ms| && Problem(ms[j], env.discovery).None? ==>
         KeyOf(ms[j], env.discovery) != KeyOf(ms[i], env.discovery)
    {
      TargetSpelled(hs[i], env.discovery);
      forall j | i < j < |hs| ensures Target(hs[j], env.discovery) != Target(hs[i], env.discovery) {
        TargetSpelled(hs[j], env.discovery);
      }
      LastWrite(hs, i, ns, release, env);
      NameFilled(hs[i], env.discovery);
      PreparedIsSent(hs[i], ns, release);
      AP.ApplyReconciles(s, ms, ns, release, env);
    }
  }

  lemma NameFilled(m: Json, d: map<(string, string), Gvr>)
    requires Problem(m, d).None?
    ensures NameOf(m) != ""
  {
    hide Lookup, PermittedKind;
  }

  /** The types garbage collection goes through. */
  lemma KnownTypes(g: Gvr)
    ensures g in KNOWN_GVRS <==>
            || g == Gvr("apps", "deployments") || g == Gvr("batch", "jobs") || g == Gvr("batch", "cronjobs")
            || (g.group == "" && g.resource in {"services", "configmaps", "secrets", "persistentvolumeclaims"})
            || (g.group == "networking.k8s.io" && g.resource in {"networkpolicies", "ingresses"})
  {
    var gs := KNOWN_GVRS;
    assert gs[0] == Gvr("apps", "deployments") && gs[1] == Gvr("", "services") && gs[2] == Gvr("", "configmaps");
    assert gs[3] == Gvr("", "secrets") && gs[4] == Gvr("batch", "jobs") && gs[5] == Gvr("batch", "cronjobs");
    assert gs[6] == Gvr("networking.k8s.io", "networkpolicies") && gs[7] == Gvr("networking.k8s.io", "ingresses");
    assert gs[8] == Gvr("", "persistentvolumeclaims");
  }
}
