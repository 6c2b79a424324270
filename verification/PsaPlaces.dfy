/** Where hardening and validation look in a manifest, and what they put and find there, with every
    kind, path and value spelled out. */
module PsaPlaces {
  import opened Wrappers
  import opened Text
  import opened Json
  import opened Psa
  import opened PsaValidation
  import opened PsaHardening

  /** Where the pod spec of a workload is. */
  predicate PodSpecAt(m: Json, base: Path) {
    || (Lookup(m, ["kind"]) == Some(Str("Deployment")) && base == ["spec", "template", "spec"])
    || (Lookup(m, ["kind"]) == Some(Str("Job")) && base == ["spec", "template", "spec"])
    || (Lookup(m, ["kind"]) == Some(Str("CronJob")) && base == ["spec", "jobTemplate", "spec", "template", "spec"])
  }

  predicate Workload(m: Json) {
    Lookup(m, ["kind"]) in {Some(Str("Deployment")), Some(Str("Job")), Some(Str("CronJob"))}
  }

  lemma WorkloadBase(m: Json)
    ensures forall base :: PodSpecAt(m, base) ==> PodBase(KindOf(m)) == Some(base)
    ensures !Workload(m) ==> PodBase(KindOf(m)) == None
    ensures Workload(m) ==> exists base :: PodSpecAt(m, base)
  {
    hide Lookup;
    KindsDiffer();
    if Workload(m) {
      assert PodSpecAt(m, ["spec", "template", "spec"]) ||
          PodSpecAt(m, ["spec", "jobTemplate", "spec", "template", "spec"]);
    }
  }

  lemma KindsDiffer()
    ensures "Deployment" != "Job" && "Deployment" != "CronJob" && "Job" != "CronJob" &&
              "" !in {"Deployment", "Job", "CronJob"}
  {
    assert |"Deployment"| == 10 && |"Job"| == 3 && |"CronJob"| == 7;
  }

  /** The items of the list at a place, if there is one. */
  function ItemsAt(m: Json, place: Path): seq<Json> {
    match Lookup(m, place)
    case Some(Arr(cs)) => cs
    case _ => []
  }

  // ----- hardening -----

  /** The list at a place after hardening each container of the list that was there. */
  predicate HardenedAt(m: Json, h: Json, place: Path) {
    match Lookup(m, place)
    case Some(Arr(cs)) =>
      Lookup(h, place).Some? && Lookup(h, place).value.Arr? && |Lookup(h, place).value.items| == |cs| &&
      forall i :: 0 <= i < |cs| ==> Lookup(h, place).value.items[i] == HardenContainer(cs[i])
    case _ => Lookup(h, place) == Lookup(m, place)
  }

  /** What is found at a place afterwards: what was there, or the default where there is room. */
  predicate DefaultedAt(v: Json, h: Json, place: Path, value: Json)
    requires place != []
  {
    Lookup(h, place) ==
    if Lookup(v, place).Some? then Lookup(v, place) else if Settable(v, place) then Some(value) else None
  }

  /** Every workload is hardened in both container lists and gets both pod defaults; nothing else
      is touched in manifests of any other kind. */
  lemma WorkloadsHardened(m: Json, base: Path)
    ensures PodSpecAt(m, base) ==>
              var h := Harden(m);
              && HardenedAt(m, h, base + ["containers"]) && HardenedAt(m, h, base + ["initContainers"])
              && DefaultedAt(m, h, base + ["securityContext", "runAsNonRoot"], Bool(true))
              && DefaultedAt(m, h, base + ["securityContext", "seccompProfile", "type"], Str("RuntimeDefault"))
    ensures !Workload(m) ==> Harden(m) == m && Violations(m) == []
  {
    hide HardenPodSpec, Lookup, PodNeedsTmp, Settable, HasTmpVolume, KindOf, PodBase, HardenContainer, PodSpecAt,
        Workload;
    WorkloadBase(m);
    HardenedPod(m, base);
  }

  /** The five defaults of a container. */
  lemma ContainersHardened(c: Json)
    requires c.Obj?
    ensures var h := HardenContainer(c);
            && DefaultedAt(c, h, ["securityContext", "allowPrivilegeEscalation"], Bool(false))
            && DefaultedAt(c, h, ["securityContext", "readOnlyRootFilesystem"], Bool(true))
            && DefaultedAt(c, h, ["securityContext", "runAsNonRoot"], Bool(true))
            && DefaultedAt(c, h, ["securityContext", "capabilities", "drop"], Arr([Str("ALL")]))
            && DefaultedAt(c, h, ["securityContext", "seccompProfile", "type"], Str("RuntimeDefault"))
  {
    hide HardenContainer, Lookup, Settable;
    HardenedContainer(c, 0);
    HardenedContainer(c, 1);
    HardenedContainer(c, 2);
    HardenedContainer(c, 3);
    HardenedContainer(c, 4);
  }

  predicate Says(v: Json, field: string, text: string) {
    v.Obj? && field in v.fields && v.fields[field] == Str(text)
  }

  /** The scratch space: a container whose root is read-only afterwards has a mount on /tmp. What is
      added for it is one mount of the volume "tmp" and one empty volume of that name, behind what
      was there and only where nothing of the kind was. */
  lemma ScratchSpace(m: Json, base: Path, list: string, i: nat)
    requires PodSpecAt(m, base) && list in {"containers", "initContainers"}
    requires i < |ItemsAt(m, base + [list])| && ItemsAt(m, base + [list])[i].Obj?
    ensures var h := Harden(m);
            && i < |ItemsAt(h, base + [list])|
            && var c, d := ItemsAt(m, base + [list])[i], ItemsAt(h, base + [list])[i];
               var before, after := ItemsAt(c, ["volumeMounts"]), ItemsAt(d, ["volumeMounts"]);
               var volumes := ItemsAt(h, base + ["volumes"]);
               && (Lookup(d, ["securityContext", "readOnlyRootFilesystem"]) == Some(Bool(true)) ==>
                     exists x <- after :: Says(x, "mountPath", "/tmp"))
               && (after != before ==>
                     && after == before + [Obj(map["name" := Str("tmp"), "mountPath" := Str("/tmp")])]
                     && exists v <- volumes :: Says(v, "name", "tmp"))
               && (volumes == ItemsAt(m, base + ["volumes"]) ||
                   volumes == ItemsAt(m, base + ["volumes"]) +
                              [Obj(map["name" := Str("tmp"), "emptyDir" := Obj(map[])])])
  {
    hide HardenPodSpec, Lookup, PodNeedsTmp, Settable, KindOf, PodBase, HardenContainer, PodSpecAt;
    WorkloadBase(m);
    HardenedPod(m, base);
    TmpMounts(m, base, [list], i);
  }

  // ----- validation -----

  /** What a check finds wrong with a container, given its pod spec's place. */
  predicate Bad(check: Check, m: Json, base: Path, c: Json) {
    match check
    case RunAsNonRoot =>
      && Lookup(m, base + ["securityContext", "runAsNonRoot"]) != Some(Bool(true))
      && Lookup(c, ["securityContext", "runAsNonRoot"]) != Some(Bool(true))
    case AllowPrivilegeEscalation =>
      Lookup(c, ["securityContext", "allowPrivilegeEscalation"]) != Some(Bool(false))
    case CapabilitiesDrop =>
      !DropsEverything(Lookup(c, ["securityContext", "capabilities", "drop"]))
    case SeccompProfile =>
      && !Confined(Lookup(m, base + ["securityContext", "seccompProfile", "type"]))
      && !Confined(Lookup(c, ["securityContext", "seccompProfile", "type"]))
  }

  predicate DropsEverything(x: Option<Json>) {
    && x.Some? && x.value.Arr? && (forall y <- x.value.items :: y.Str?)
    && exists y <- x.value.items :: y.Str? && ToLower(y.s) == "all"
  }

  predicate Confined(x: Option<Json>) {
    x == Some(Str("RuntimeDefault")) || x == Some(Str("Localhost"))
  }

  /** A container goes by its name, or by its list and place if it has none. */
  function Called(c: Json, list: Path, i: nat): Label {
    match Lookup(c, ["name"])
    case Some(Str(n)) => if n == "" then Indexed(list, i) else Named(n)
    case _ => Indexed(list, i)
  }

  predicate Reported(m: Json, base: Path, list: Path, cs: seq<Json>, v: Violation) {
    exists i :: 0 <= i < |cs| && cs[i].Obj? && v.container == Called(cs[i], list, i) && Bad(v.check, m, base, cs[i])
  }

  lemma CalledIsLabel(c: Json, list: Path, i: nat)
    ensures LabelOf(c, list, i) == Called(c, list, i)
  {
  }

  lemma ContainerReported(m: Json, base: Path, f: PodFacts, list: Path, i: nat, c: Json, v: Violation)
    requires f == FactsOf(m, base, KindOf(m), NameOf(m))
    ensures v in ContainerViolations(f, list, i, c) <==>
            c.Obj? && v.kind == KindOf(m) && v.name == NameOf(m) && v.container == Called(c, list, i) &&
            Bad(v.check, m, base, c)
  {
    hide Lookup, KindOf, NameOf, LabelOf, Called, ToLower;
    CalledIsLabel(c, list, i);
  }

  lemma {:induction false} ListReported(m: Json, base: Path, f: PodFacts, list: Path, cs: seq<Json>, v: Violation)
    requires f == FactsOf(m, base, KindOf(m), NameOf(m))
    ensures v in ListViolations(f, list, cs) <==>
            v.kind == KindOf(m) && v.name == NameOf(m) && Reported(m, base, list, cs, v)
  {
    hide ContainerViolations, Bad, FactsOf, Called, KindOf, NameOf;
    if cs != [] {
      var n := |cs| - 1;
      ListReported(m, base, f, list, cs[..n], v);
      ContainerReported(m, base, f, list, n, cs[n], v);
      if Reported(m, base, list, cs[..n], v) {
        var i :| 0 <= i < n && cs[..n][i].Obj? && v.container == Called(cs[..n][i], list, i) &&
            Bad(v.check, m, base, cs[..n][i]);
        assert cs[i] == cs[..n][i];
      }
      if Reported(m, base, list, cs, v) {
        var i :| 0 <= i < |cs| && cs[i].Obj? && v.container == Called(cs[i], list, i) && Bad(v.check, m, base, cs[i]);
        assert i < n ==> cs[..n][i] == cs[i];
      }
    }
  }

  /** The report on a workload, check by check: it names a container exactly if one under that label,
      in either list, is bad in that respect. */
  lemma WorkloadsReported(m: Json, base: Path, v: Violation)
    requires PodSpecAt(m, base)
    ensures v in Violations(m) <==>
            && v.kind == KindOf(m) && v.name == NameOf(m)
            && (|| Reported(m, base, ["containers"], ItemsAt(m, base + ["containers"]), v)
                || Reported(m, base, ["initContainers"], ItemsAt(m, base + ["initContainers"]), v))
  {
    hide Lookup, KindOf, NameOf, Reported, ListViolations, FactsOf, PodBase, PodSpecAt;
    WorkloadBase(m);
    var f := FactsOf(m, base, KindOf(m), NameOf(m));
    ListReported(m, base, f, CONTAINERS, List(m, base + CONTAINERS), v);
    ListReported(m, base, f, INIT_CONTAINERS, List(m, base + INIT_CONTAINERS), v);
  }
}
