/** Pod Security Admission: `ensurePSACompliance` (`pkg/tools/deploy.go`) fills in defaults on
    workload manifests, `ValidatePSA` (`pkg/k8s/psa.go`) checks the Restricted profile. */
module Psa {
  import opened Wrappers
  import opened Text
  import opened Json

  const APE: Path := ["securityContext", "allowPrivilegeEscalation"]
  const READ_ONLY: Path := ["securityContext", "readOnlyRootFilesystem"]
  const NON_ROOT: Path := ["securityContext", "runAsNonRoot"]
  const DROP: Path := ["securityContext", "capabilities", "drop"]
  const SECCOMP: Path := ["securityContext", "seccompProfile", "type"]
  const MOUNTS: Path := ["volumeMounts"]
  const NAME: Path := ["name"]
  const CONTAINERS: Path := ["containers"]
  const INIT_CONTAINERS: Path := ["initContainers"]
  const VOLUMES: Path := ["volumes"]

  const TMP_MOUNT: Json := Obj(map["name" := Str("tmp"), "mountPath" := Str("/tmp")])
  const TMP_VOLUME: Json := Obj(map["name" := Str("tmp"), "emptyDir" := EMPTY])

  /** A field to be set when it is absent. */
  datatype Default = Default(path: Path, value: Json)

  const POD_DEFAULTS: seq<Default> := [
    Default(NON_ROOT, Bool(true)),
    Default(SECCOMP, Str("RuntimeDefault"))]

  const CONTAINER_DEFAULTS: seq<Default> := [
    Default(APE, Bool(false)),
    Default(READ_ONLY, Bool(true)),
    Default(NON_ROOT, Bool(true)),
    Default(DROP, Arr([Str("ALL")])),
    Default(SECCOMP, Str("RuntimeDefault"))]

  function SetAll(v: Json, base: Path, ds: seq<Default>): Json
    requires forall d <- ds :: d.path != []
  {
    if ds == [] then v
    else SetIfAbsent(SetAll(v, base, ds[..|ds| - 1]), ds[|ds| - 1].value, base + ds[|ds| - 1].path)
  }

  // ----- hardening -----

  /** `NestedSlice` with its error ignored. */
  function List(v: Json, path: Path): seq<Json> {
    match Lookup(v, path)
    case Some(Arr(xs)) => xs
    case _ => []
  }

  predicate HasField(v: Json, field: string, text: string) {
    v.Obj? && field in v.fields && v.fields[field] == Str(text)
  }

  predicate HasTmpMount(mounts: seq<Json>) {
    exists m <- mounts :: HasField(m, "mountPath", "/tmp")
  }

  predicate HasTmpVolume(volumes: seq<Json>) {
    exists v <- volumes :: HasField(v, "name", "tmp")
  }

  function HardenSecurity(c: Json): Json {
    SetAll(c, [], CONTAINER_DEFAULTS)
  }

  predicate ReadOnlyRoot(c: Json) {
    Lookup(c, READ_ONLY) == Some(Bool(true))
  }

  function HardenContainer(c: Json): Json {
    if !c.Obj? then c
    else
      var s := HardenSecurity(c);
      if ReadOnlyRoot(s) && !HasTmpMount(List(s, MOUNTS)) then
        SetNested(s, Arr(List(s, MOUNTS) + [TMP_MOUNT]), MOUNTS)
      else s
  }

  /** Whether a container has or gets a mount on /tmp. */
  predicate NeedsTmp(c: Json) {
    c.Obj? && (HasTmpMount(List(c, MOUNTS)) || ReadOnlyRoot(HardenSecurity(c)))
  }

  function HardenAll(cs: seq<Json>): seq<Json> {
    seq(|cs|, i requires 0 <= i < |cs| => HardenContainer(cs[i]))
  }

  function HardenField(v: Json, path: Path): Json
    requires path != []
  {
    match Lookup(v, path)
    case Some(Arr(cs)) => SetNested(v, Arr(HardenAll(cs)), path)
    case _ => v
  }

  predicate AnyNeedsTmp(cs: seq<Json>) {
    exists c <- cs :: NeedsTmp(c)
  }

  /** Containers and init containers of the pod spec at `base`. */
  predicate PodNeedsTmp(v: Json, base: Path) {
    AnyNeedsTmp(List(v, base + CONTAINERS)) || AnyNeedsTmp(List(v, base + INIT_CONTAINERS))
  }

  function WithTmpVolume(v: Json, base: Path): Json {
    var volumes := List(v, base + VOLUMES);
    if HasTmpVolume(volumes) then v
    else SetNested(v, Arr(volumes + [TMP_VOLUME]), base + VOLUMES)
  }

  function HardenPodSpec(v: Json, base: Path): Json {
    var s := SetAll(v, base, POD_DEFAULTS);
    var f := HardenField(HardenField(s, base + CONTAINERS), base + INIT_CONTAINERS);
    if PodNeedsTmp(s, base) then WithTmpVolume(f, base) else f
  }

  const DEPLOYMENT_BASE: Path := ["spec", "template", "spec"]
  const CRON_JOB_BASE: Path := ["spec", "jobTemplate", "spec", "template", "spec"]

  function PodBase(kind: string): Option<Path> {
    if kind == "Deployment" || kind == "Job" then Some(DEPLOYMENT_BASE)
    else if kind == "CronJob" then Some(CRON_JOB_BASE)
    else None
  }

  function Harden(m: Json): Json {
    var base := PodBase(KindOf(m));
    if base.Some? then HardenPodSpec(m, base.value) else m
  }

  // ----- the hardening methods -----

  method EnsureContainer(c0: Json) returns (c: Json, tmp: bool)
    requires c0.Obj?
    ensures c == HardenContainer(c0) && tmp == NeedsTmp(c0)
  {
    c := SetIfAbsent(c0, Bool(false), [] + APE);
    c := SetIfAbsent(c, Bool(true), [] + READ_ONLY);
    c := SetIfAbsent(c, Bool(true), [] + NON_ROOT);
    c := SetIfAbsent(c, Arr([Str("ALL")]), [] + DROP);
    c := SetIfAbsent(c, Str("RuntimeDefault"), [] + SECCOMP);
    FiveDefaults(c0, c);
    MountsUntouched(c0);
    tmp := false;
    var mounts := List(c, MOUNTS);
    var containerHasTmp := false;
    for i := 0 to |mounts|
      invariant containerHasTmp == HasTmpMount(mounts[..i])
      invariant tmp == containerHasTmp
    {
      assert mounts[..i + 1] == mounts[..i] + [mounts[i]];
      if HasField(mounts[i], "mountPath", "/tmp") {
        containerHasTmp, tmp := true, true;
      }
    }
    assert mounts[..|mounts|] == mounts;
    if ReadOnlyRoot(c) && !containerHasTmp {
      c := SetNested(c, Arr(mounts + [TMP_MOUNT]), MOUNTS);
      tmp := true;
    }
  }

  method EnsureField(v0: Json, path: Path) returns (v: Json, tmp: bool)
    requires path != []
    ensures v == HardenField(v0, path) && tmp == AnyNeedsTmp(List(v0, path))
  {
    v, tmp := v0, false;
    var found := Lookup(v0, path);
    if found.None? || !found.value.Arr? {
      return;
    }
    var cs := found.value.items;
    var hardened := cs;
    for i := 0 to |cs|
      invariant |hardened| == |cs|
      invariant forall j :: 0 <= j < i ==> hardened[j] == HardenContainer(cs[j])
      invariant forall j :: i <= j < |cs| ==> hardened[j] == cs[j]
      invariant tmp == AnyNeedsTmp(cs[..i])
    {
      assert cs[..i + 1] == cs[..i] + [cs[i]];
      if cs[i].Obj? {
        var c, t := EnsureContainer(cs[i]);
        hardened := hardened[i := c];
        tmp := tmp || t;
      }
    }
    assert cs[..|cs|] == cs;
    assert hardened == HardenAll(cs);
    v := SetNested(v0, Arr(hardened), path);
  }

  /** `ensurePodSpecPSA`: pod defaults, then each container list, then the shared /tmp volume. */
  method EnsurePodSpecPSA(v0: Json, base: Path) returns (v: Json)
    ensures v == HardenPodSpec(v0, base)
  {
    v := SetIfAbsent(v0, Bool(true), base + NON_ROOT);
    v := SetIfAbsent(v, Str("RuntimeDefault"), base + SECCOMP);
    TwoDefaults(v0, base, v);
    ghost var s := v;
    var tmp, t;
    v, tmp := EnsureField(v, base + CONTAINERS);
    InitUntouched(s, base);
    v, t := EnsureField(v, base + INIT_CONTAINERS);
    if tmp || t {
      var volumes := List(v, base + VOLUMES);
      var i := 0;
      while i < |volumes| && !HasField(volumes[i], "name", "tmp")
        invariant 0 <= i <= |volumes|
        invariant forall j :: 0 <= j < i ==> !HasField(volumes[j], "name", "tmp")
      {
        i := i + 1;
      }
      if i == |volumes| {
        v := SetNested(v, Arr(volumes + [TMP_VOLUME]), base + VOLUMES);
      }
    }
  }

  /** `ensurePSACompliance`. */
  method EnsurePSACompliance(ms: seq<Json>) returns (r: seq<Json>)
    ensures |r| == |ms| && forall i :: 0 <= i < |ms| ==> r[i] == Harden(ms[i])
  {
    hide HardenPodSpec, KindOf, PodBase;
    r := ms;
    for i := 0 to |ms|
      invariant |r| == |ms|
      invariant forall j :: 0 <= j < i ==> r[j] == Harden(ms[j])
      invariant forall j :: i <= j < |ms| ==> r[j] == ms[j]
    {
      var base := PodBase(KindOf(ms[i]));
      if base.None? {
        continue;
      }
      var h := EnsurePodSpecPSA(ms[i], base.value);
      r := r[i := h];
    }
  }

  lemma FiveDefaults(c: Json, r: Json)
    requires r == SetIfAbsent(SetIfAbsent(SetIfAbsent(SetIfAbsent(SetIfAbsent(c,
                    Bool(false), [] + APE), Bool(true), [] + READ_ONLY), Bool(true), [] + NON_ROOT),
                    Arr([Str("ALL")]), [] + DROP), Str("RuntimeDefault"), [] + SECCOMP)
    ensures r == HardenSecurity(c)
  {
    hide SetIfAbsent;
    var ds := CONTAINER_DEFAULTS;
    assert ds[..4][..3] == ds[..3] && ds[..3][..2] == ds[..2] && ds[..2][..1] == ds[..1] && ds[..1][..0] == [];
    assert ds[..5] == ds;
    assert ds[..1] == [ds[0]];
    assert SetAll(c, [], ds[..1]) == SetIfAbsent(c, Bool(false), [] + APE);
    assert SetAll(c, [], ds[..2]) == SetIfAbsent(SetIfAbsent(c, Bool(false), [] + APE), Bool(true), [] + READ_ONLY);
    assert SetAll(c, [], ds[..4]) ==
        SetIfAbsent(SetIfAbsent(SetAll(c, [], ds[..2]), Bool(true), [] + NON_ROOT), Arr([Str("ALL")]), [] + DROP);
  }

  lemma TwoDefaults(v: Json, base: Path, r: Json)
    requires r == SetIfAbsent(SetIfAbsent(v, Bool(true), base + NON_ROOT), Str("RuntimeDefault"), base + SECCOMP)
    ensures r == SetAll(v, base, POD_DEFAULTS)
  {
    hide SetIfAbsent;
    var ds := POD_DEFAULTS;
    assert ds[..1][..0] == [];
    assert ds[..2] == ds;
    assert SetAll(v, base, ds[..1]) == SetIfAbsent(v, Bool(true), base + NON_ROOT);
  }

  // ----- defaults and independent paths -----

  predicate PairwiseIndependent(ds: seq<Default>) {
    && (forall i :: 0 <= i < |ds| ==> ds[i].path != [])
    && forall i, j :: 0 <= i < |ds| && 0 <= j < |ds| && i != j ==> Independent(ds[i].path, ds[j].path)
  }

  lemma FieldNamesDiffer()
    ensures "allowPrivilegeEscalation" != "readOnlyRootFilesystem" && "allowPrivilegeEscalation" != "runAsNonRoot"
    ensures "readOnlyRootFilesystem" != "runAsNonRoot"
    ensures "capabilities" != "seccompProfile" && "capabilities" != "allowPrivilegeEscalation"
    ensures "capabilities" != "readOnlyRootFilesystem" && "capabilities" != "runAsNonRoot"
    ensures "seccompProfile" != "allowPrivilegeEscalation" && "seccompProfile" != "readOnlyRootFilesystem"
    ensures "seccompProfile" != "runAsNonRoot"
    ensures "securityContext" != "volumeMounts" && "securityContext" != "name"
    ensures "securityContext" != "containers" && "securityContext" != "initContainers" && "securityContext" != "volumes"
    ensures "containers" != "initContainers" && "containers" != "volumes" && "initContainers" != "volumes"
    ensures "volumeMounts" != "name"
  {
    assert |"allowPrivilegeEscalation"| == 24 && |"readOnlyRootFilesystem"| == 22 && |"runAsNonRoot"| == 12;
    assert |"capabilities"| == 12 && |"seccompProfile"| == 14 && "capabilities"[0] == 'c' && "runAsNonRoot"[0] == 'r';
    assert |"securityContext"| == 15 && |"volumeMounts"| == 12 && |"name"| == 4 && |"containers"| == 10;
    assert |"initContainers"| == 14 && |"volumes"| == 7;
  }

  lemma TwoStep(p: Path, q: Path)
    requires |p| >= 2 && |q| >= 2 && p[0] == q[0] && p[1] != q[1]
    ensures Independent(p, q)
  {
  }

  lemma DefaultsIndependent()
    ensures PairwiseIndependent(CONTAINER_DEFAULTS) && PairwiseIndependent(POD_DEFAULTS)
    ensures forall d <- CONTAINER_DEFAULTS :: Independent(d.path, MOUNTS) && Independent(d.path, NAME)
    ensures forall d <- POD_DEFAULTS :: Independent(d.path, CONTAINERS) && Independent(d.path, INIT_CONTAINERS) &&
              Independent(d.path, VOLUMES)
    ensures Independent(MOUNTS, NAME)
    ensures forall d <- CONTAINER_DEFAULTS :: Independent(MOUNTS, d.path)
  {
    FieldNamesDiffer();
    var ds := CONTAINER_DEFAULTS;
    forall i, j | 0 <= i < |ds| && 0 <= j < |ds| && i != j ensures Independent(ds[i].path, ds[j].path) {
      TwoStep(ds[i].path, ds[j].path);
    }
    var es := POD_DEFAULTS;
    forall i, j | 0 <= i < |es| && 0 <= j < |es| && i != j ensures Independent(es[i].path, es[j].path) {
      TwoStep(es[i].path, es[j].path);
    }
  }

  lemma {:induction false} IndependentBelow(base: Path, p: Path, q: Path)
    requires Independent(p, q)
    ensures Independent(base + p, base + q)
  {
    if base == [] {
      assert base + p == p && base + q == q;
    } else {
      assert (base + p)[1..] == base[1..] + p && (base + q)[1..] == base[1..] + q;
      IndependentBelow(base[1..], p, q);
    }
  }

  /** Paths independent of every default are left alone. */
  lemma {:induction false} SetAllOther(v: Json, base: Path, ds: seq<Default>, q: Path)
    requires forall d <- ds :: d.path != [] && Independent(base + d.path, q)
    requires q != []
    ensures Lookup(SetAll(v, base, ds), q) == Lookup(v, q)
    ensures Settable(SetAll(v, base, ds), q) == Settable(v, q)
  {
    if ds != [] {
      var d := ds[|ds| - 1];
      assert d in ds && forall e <- ds[..|ds| - 1] :: e in ds;
      SetAllOther(v, base, ds[..|ds| - 1], q);
      SetIfAbsentIndependent(SetAll(v, base, ds[..|ds| - 1]), d.value, base + d.path, q);
    }
  }

  /** What is found at a path once its default was offered. */
  function After(v: Json, path: Path, value: Json): Option<Json>
    requires path != []
  {
    if Lookup(v, path).Some? then Lookup(v, path) else if Settable(v, path) then Some(value) else None
  }

  lemma {:induction false} SetAllLookup(v: Json, base: Path, ds: seq<Default>, i: nat)
    requires PairwiseIndependent(ds) && i < |ds|
    ensures Lookup(SetAll(v, base, ds), base + ds[i].path) == After(v, base + ds[i].path, ds[i].value)
    ensures Lookup(SetAll(v, base, ds), base + ds[i].path).None? ==> !Settable(SetAll(v, base, ds), base + ds[i].path)
  {
    var n := |ds| - 1;
    var before := SetAll(v, base, ds[..n]);
    var last := base + ds[n].path;
    if i == n {
      forall d | d in ds[..n] ensures Independent(base + d.path, last) {
        var j :| 0 <= j < n && ds[j] == d;
        IndependentBelow(base, ds[j].path, ds[n].path);
      }
      SetAllOther(v, base, ds[..n], last);
      SetIfAbsentLookup(before, ds[n].value, last);
      SetLookup(before, ds[n].value, last);
    } else {
      SetAllLookup(v, base, ds[..n], i);
      IndependentBelow(base, ds[n].path, ds[i].path);
      SetIfAbsentIndependent(before, ds[n].value, last, base + ds[i].path);
    }
  }

  /** Offering defaults that are all taken or refused already changes nothing. */
  lemma {:induction false} SetAllSettled(v: Json, base: Path, ds: seq<Default>)
    requires forall d <- ds :: d.path != []
    requires forall d <- ds :: Lookup(v, base + d.path).Some? || !Settable(v, base + d.path)
    ensures SetAll(v, base, ds) == v
  {
    if ds != [] {
      var d := ds[|ds| - 1];
      assert d in ds && forall e <- ds[..|ds| - 1] :: e in ds;
      SetAllSettled(v, base, ds[..|ds| - 1]);
      SetLookup(v, d.value, base + d.path);
    }
  }

  lemma {:induction false} SetAllExtends(v: Json, base: Path, ds: seq<Default>)
    requires forall d <- ds :: d.path != []
    ensures Extends(v, SetAll(v, base, ds))
    ensures v.Obj? ==> SetAll(v, base, ds).Obj?
  {
    if ds == [] {
      ExtendsReflexive(v);
    } else {
      var before := SetAll(v, base, ds[..|ds| - 1]);
      var d := ds[|ds| - 1];
      assert d in ds && forall e <- ds[..|ds| - 1] :: e in ds;
      SetAllExtends(v, base, ds[..|ds| - 1]);
      ExtendsReflexive(before);
      if Lookup(before, base + d.path).None? {
        SetExtends(before, d.value, base + d.path);
      }
      ExtendsTransitive(v, before, SetAll(v, base, ds));
    }
  }

  lemma MountsUntouched(c: Json)
    ensures Lookup(HardenSecurity(c), MOUNTS) == Lookup(c, MOUNTS)
    ensures Lookup(HardenSecurity(c), NAME) == Lookup(c, NAME)
  {
    DefaultsIndependent();
    forall d | d in CONTAINER_DEFAULTS
      ensures d.path != [] && Independent([] + d.path, MOUNTS) && Independent([] + d.path, NAME)
    {
      assert [] + d.path == d.path;
    }
    SetAllOther(c, [], CONTAINER_DEFAULTS, MOUNTS);
    SetAllOther(c, [], CONTAINER_DEFAULTS, NAME);
  }

  lemma InitUntouched(s: Json, base: Path)
    ensures Lookup(HardenField(s, base + CONTAINERS), base + INIT_CONTAINERS) == Lookup(s, base + INIT_CONTAINERS)
  {
    FieldNamesDiffer();
    IndependentBelow(base, CONTAINERS, INIT_CONTAINERS);
    var l := Lookup(s, base + CONTAINERS);
    if l.Some? && l.value.Arr? {
      SetIndependent(s, Arr(HardenAll(l.value.items)), base + CONTAINERS, base + INIT_CONTAINERS);
    }
  }
}
