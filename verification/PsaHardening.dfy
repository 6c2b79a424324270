/** Properties of `ensurePSACompliance` on its own: it settles at once, keeps what the author
    wrote, and gives read-only containers a writable /tmp that exists. */
module PsaHardening {
  import opened Wrappers
  import opened Json
  import opened Psa
  import opened PsaValidation

  // ----- containers -----

  lemma SettledContainer(c: Json, d: Default)
    requires c.Obj? && d in CONTAINER_DEFAULTS
    ensures d.path != []
    ensures Lookup(HardenContainer(c), d.path).Some? || !Settable(HardenContainer(c), d.path)
  {
    hide SetAll, Lookup, SetNested, Independent, Settable;
    DefaultsIndependent();
    var i :| 0 <= i < |CONTAINER_DEFAULTS| && CONTAINER_DEFAULTS[i] == d;
    HardenedContainer(c, i);
    SetAllLookup(c, [], CONTAINER_DEFAULTS, i);
    assert [] + d.path == d.path;
    var s := HardenSecurity(c);
    SetIndependent(s, Arr(List(s, MOUNTS) + [TMP_MOUNT]), MOUNTS, d.path);
  }

  lemma SecurityTwice(c: Json)
    requires c.Obj?
    ensures HardenContainer(c).Obj? && HardenSecurity(HardenContainer(c)) == HardenContainer(c)
  {
    hide SetAll, HardenContainer, Lookup, Settable;
    HardenedContainer(c, 0);
    var h := HardenContainer(c);
    forall d | d in CONTAINER_DEFAULTS
      ensures d.path != [] && (Lookup(h, [] + d.path).Some? || !Settable(h, [] + d.path))
    {
      SettledContainer(c, d);
      assert [] + d.path == d.path;
    }
    SetAllSettled(h, [], CONTAINER_DEFAULTS);
  }

  /** A container gets a /tmp mount exactly when its root ends up read-only and it has none. */
  predicate GetsMount(c: Json) {
    c.Obj? && ReadOnlyRoot(HardenSecurity(c)) && !HasTmpMount(List(c, MOUNTS))
  }

  lemma MountsAfter(c: Json)
    requires c.Obj?
    ensures List(HardenContainer(c), MOUNTS) == List(c, MOUNTS) + if GetsMount(c) then [TMP_MOUNT] else []
    ensures Lookup(HardenContainer(c), MOUNTS) ==
              if GetsMount(c) then Some(Arr(List(c, MOUNTS) + [TMP_MOUNT])) else Lookup(c, MOUNTS)
    ensures ReadOnlyRoot(HardenContainer(c)) == ReadOnlyRoot(HardenSecurity(c))
  {
    hide HardenSecurity, HasTmpMount;
    MountsUntouched(c);
    var s := HardenSecurity(c);
    SecurityObj(c);
    SetLookup(s, Arr(List(s, MOUNTS) + [TMP_MOUNT]), MOUNTS);
    FieldNamesDiffer();
    SetIndependent(s, Arr(List(s, MOUNTS) + [TMP_MOUNT]), MOUNTS, READ_ONLY);
  }

  lemma SecurityObj(c: Json)
    requires c.Obj?
    ensures HardenSecurity(c).Obj?
  {
    hide SetAll;
    DefaultsIndependent();
    SetAllExtends(c, [], CONTAINER_DEFAULTS);
  }

  lemma TmpMountIsOne(mounts: seq<Json>)
    ensures HasTmpMount(mounts + [TMP_MOUNT])
    ensures HasTmpVolume(mounts + [TMP_VOLUME])
  {
    var a, b := mounts + [TMP_MOUNT], mounts + [TMP_VOLUME];
    assert a[|mounts|] in a && HasField(TMP_MOUNT, "mountPath", "/tmp");
    assert b[|mounts|] in b && HasField(TMP_VOLUME, "name", "tmp");
  }

  /** A hardened container with a read-only root has a mount on /tmp, and hardening it again,
      or asking again whether it needs one, gives the same answer. */
  lemma ContainerTwice(c: Json)
    ensures HardenContainer(HardenContainer(c)) == HardenContainer(c)
    ensures NeedsTmp(HardenContainer(c)) == NeedsTmp(c)
    ensures c.Obj? && ReadOnlyRoot(HardenContainer(c)) ==> HasTmpMount(List(HardenContainer(c), MOUNTS))
  {
    if c.Obj? {
      hide HardenSecurity, HasTmpMount, List, ReadOnlyRoot, SetNested;
      SecurityTwice(c);
      MountsAfter(c);
      TmpMountIsOne(List(c, MOUNTS));
      var h := HardenContainer(c);
      assert GetsMount(c) ==> HasTmpMount(List(h, MOUNTS));
      assert List(c, MOUNTS) + [] == List(c, MOUNTS);
    }
  }

  lemma AllTwice(cs: seq<Json>)
    ensures HardenAll(HardenAll(cs)) == HardenAll(cs)
    ensures AnyNeedsTmp(HardenAll(cs)) == AnyNeedsTmp(cs)
  {
    hide HardenContainer, NeedsTmp;
    var hs := HardenAll(cs);
    forall i | 0 <= i < |cs| ensures HardenContainer(hs[i]) == hs[i] && NeedsTmp(hs[i]) == NeedsTmp(cs[i]) {
      ContainerTwice(cs[i]);
    }
    forall c | c in cs && NeedsTmp(c) ensures AnyNeedsTmp(hs) {
      var i :| 0 <= i < |cs| && cs[i] == c;
      assert hs[i] in hs;
    }
    forall h | h in hs && NeedsTmp(h) ensures AnyNeedsTmp(cs) {
      var i :| 0 <= i < |hs| && hs[i] == h;
      assert cs[i] in cs;
    }
  }

  // ----- pods -----

  lemma {:induction false} SetSame(v: Json, x: Json, path: Path)
    requires path != [] && Lookup(v, path) == Some(x)
    ensures SetNested(v, x, path) == v
    decreases |path|
  {
    if |path| == 1 {
      assert path[1..] == [];
      assert Lookup(v, path) == Lookup(v.fields[path[0]], []);
      assert v.fields[path[0] := x] == v.fields;
    } else {
      SetSame(v.fields[path[0]], x, path[1..]);
      assert v.fields[path[0] := v.fields[path[0]]] == v.fields;
    }
  }

  lemma FieldTwice(h: Json, path: Path, x: Option<Json>)
    requires path != [] && Lookup(h, path) == HardenedList(x)
    ensures HardenField(h, path) == h
    ensures AnyNeedsTmp(List(h, path)) == AnyNeedsTmp(if x.Some? && x.value.Arr? then x.value.items else [])
  {
    hide HardenAll, AnyNeedsTmp;
    if x.Some? && x.value.Arr? {
      AllTwice(x.value.items);
      SetSame(h, Arr(HardenAll(x.value.items)), path);
    }
  }

  lemma SettledPod(v: Json, base: Path, d: Default)
    requires d in POD_DEFAULTS
    ensures d.path != []
    ensures var h := HardenPodSpec(v, base); Lookup(h, base + d.path).Some? || !Settable(h, base + d.path)
  {
    hide SetAll, HardenField, WithTmpVolume, Lookup, PodNeedsTmp, Settable, Independent;
    PodPathsAside(base);
    DefaultsIndependent();
    var q := base + d.path;
    var i :| 0 <= i < |POD_DEFAULTS| && POD_DEFAULTS[i] == d;
    SetAllLookup(v, base, POD_DEFAULTS, i);
    var s := SetAll(v, base, POD_DEFAULTS);
    HardenedAside(v, base, q);
    FieldLookup(s, base + CONTAINERS, q);
    var f := HardenField(s, base + CONTAINERS);
    FieldLookup(f, base + INIT_CONTAINERS, q);
    VolumeSettable(HardenField(f, base + INIT_CONTAINERS), base, q);
  }

  lemma VolumeSettable(v: Json, base: Path, q: Path)
    requires Independent(base + VOLUMES, q)
    ensures q != [] && Settable(WithTmpVolume(v, base), q) == Settable(v, q)
  {
    SetIndependent(v, Arr(List(v, base + VOLUMES) + [TMP_VOLUME]), base + VOLUMES, q);
  }

  lemma TmpVolumePresent(v: Json, base: Path)
    requires PodNeedsTmp(v, base)
    ensures HasTmpVolume(List(HardenPodSpec(v, base), base + VOLUMES))
  {
    hide HardenPodSpec, PodNeedsTmp, HardenAll;
    HardenedPod(v, base);
    TmpMountIsOne(List(v, base + VOLUMES));
  }

  lemma PodTwice(v: Json, base: Path)
    ensures HardenPodSpec(HardenPodSpec(v, base), base) == HardenPodSpec(v, base)
  {
    var h := HardenPodSpec(v, base);
    assert SetAll(h, base, POD_DEFAULTS) == h by {
      hide HardenPodSpec, Lookup, Settable, SetAll;
      forall d | d in POD_DEFAULTS
        ensures d.path != [] && (Lookup(h, base + d.path).Some? || !Settable(h, base + d.path))
      {
        SettledPod(v, base, d);
      }
      SetAllSettled(h, base, POD_DEFAULTS);
    }
    assert HardenField(h, base + CONTAINERS) == h && HardenField(h, base + INIT_CONTAINERS) == h &&
           PodNeedsTmp(h, base) == PodNeedsTmp(v, base) by {
      hide HardenPodSpec, Lookup, HardenField, HardenedList, AnyNeedsTmp, SetAll;
      HardenedPod(v, base);
      FieldTwice(h, base + CONTAINERS, Lookup(v, base + CONTAINERS));
      FieldTwice(h, base + INIT_CONTAINERS, Lookup(v, base + INIT_CONTAINERS));
    }
    hide SetAll, HardenField, PodNeedsTmp, List, HasTmpVolume, SetNested;
    if PodNeedsTmp(v, base) {
      TmpVolumePresent(v, base);
    }
  }

  /** Hardening twice is hardening once, on every tree. */
  lemma HardenTwice(m: Json)
    ensures Harden(Harden(m)) == Harden(m)
  {
    hide HardenPodSpec, KindOf, NameOf;
    HeaderKept(m);
    var base := PodBase(KindOf(m));
    if base.Some? {
      PodTwice(m, base.value);
    }
  }

  /** A workload whose container list is `list`, found under `base`. */
  ghost predicate PodList(m: Json, base: Path, list: Path) {
    PodBase(KindOf(m)) == Some(base) && (list == CONTAINERS || list == INIT_CONTAINERS)
  }

  /** After hardening, each container with a read-only root has a mount on /tmp; a container's
      mounts are its own plus at most the /tmp mount; and if that one was added, the pod spec
      has the volume it names. */
  lemma TmpMounts(m: Json, base: Path, list: Path, i: nat)
    requires PodList(m, base, list) && i < |List(m, base + list)| && List(m, base + list)[i].Obj?
    ensures var h := Harden(m);
            && |List(h, base + list)| == |List(m, base + list)|
            && var c, d := List(m, base + list)[i], List(h, base + list)[i];
               && (ReadOnlyRoot(d) ==> HasTmpMount(List(d, MOUNTS)))
               && (List(d, MOUNTS) == List(c, MOUNTS) ||
                   (List(d, MOUNTS) == List(c, MOUNTS) + [TMP_MOUNT] && HasTmpVolume(List(h, base + VOLUMES))))
  {
    hide HardenPodSpec, HardenContainer, HasTmpMount, KindOf;
    HardenedPod(m, base);
    var c := List(m, base + list)[i];
    assert c in List(m, base + list);
    ContainerTwice(c);
    MountsAfter(c);
    if GetsMount(c) {
      assert NeedsTmp(c);
      TmpVolumePresent(m, base);
    }
  }

  // ----- nothing the author wrote is lost -----

  /** A place where a list is expected holds one, or nothing. */
  predicate ListLike(x: Option<Json>) {
    x.Some? ==> x.value.Arr? || x.value.Null?
  }

  predicate MountsKept(cs: seq<Json>) {
    forall c <- cs :: GetsMount(c) ==> ListLike(Lookup(c, MOUNTS))
  }

  /** Where hardening appends, the author's tree has a list: in the mounts of every container
      that gets one, and in the volumes if any container needs /tmp. */
  predicate WellTyped(m: Json) {
    var base := PodBase(KindOf(m));
    base.Some? ==>
      var b := base.value;
      && MountsKept(List(m, b + CONTAINERS)) && MountsKept(List(m, b + INIT_CONTAINERS))
      && (PodNeedsTmp(m, b) ==> ListLike(Lookup(m, b + VOLUMES)))
  }

  lemma {:induction false} ExtendsLookup(v: Json, w: Json, path: Path)
    requires Extends(v, w) && Lookup(v, path).Some? && !Lookup(v, path).value.Null?
    ensures Lookup(w, path).Some? && Extends(Lookup(v, path).value, Lookup(w, path).value)
    decreases |path|
  {
    if path != [] {
      ExtendsLookup(v.fields[path[0]], w.fields[path[0]], path[1..]);
    }
  }

  lemma ListGrows(xs: seq<Json>, x: Json)
    ensures Extends(Arr(xs), Arr(xs + [x]))
  {
    forall i | 0 <= i < |xs| ensures Extends(xs[i], (xs + [x])[i]) {
      ExtendsReflexive(xs[i]);
    }
  }

  lemma ContainerExtends(c: Json)
    ensures Extends(c, HardenContainer(c)) <==> (GetsMount(c) ==> ListLike(Lookup(c, MOUNTS)))
  {
    ExtendsReflexive(c);
    if c.Obj? {
      hide Extends, HardenSecurity, HasTmpMount, ReadOnlyRoot;
      MountsUntouched(c);
      var s := HardenSecurity(c);
      SecurityExtends(c);
      MountsAfter(c);
      if GetsMount(c) {
        var l := Lookup(c, MOUNTS);
        if ListLike(l) {
          MountsGrow(s);
          ExtendsTransitive(c, s, HardenContainer(c));
        } else if Extends(c, HardenContainer(c)) {
          ExtendsLookup(c, HardenContainer(c), MOUNTS);
          NotAList(l.value, Lookup(HardenContainer(c), MOUNTS).value);
        }
      }
    }
  }

  lemma NotAList(x: Json, y: Json)
    requires Extends(x, y) && y.Arr?
    ensures x.Arr? || x.Null?
  {
  }

  lemma SecurityExtends(c: Json)
    ensures Extends(c, HardenSecurity(c))
  {
    hide SetAll, Extends;
    DefaultsIndependent();
    SetAllExtends(c, [], CONTAINER_DEFAULTS);
  }

  lemma MountsGrow(s: Json)
    requires ListLike(Lookup(s, MOUNTS))
    ensures Extends(s, SetNested(s, Arr(List(s, MOUNTS) + [TMP_MOUNT]), MOUNTS))
  {
    ListGrows(List(s, MOUNTS), TMP_MOUNT);
    SetExtends(s, Arr(List(s, MOUNTS) + [TMP_MOUNT]), MOUNTS);
  }

  lemma AllExtends(cs: seq<Json>)
    ensures Extends(Arr(cs), Arr(HardenAll(cs))) <==> MountsKept(cs)
  {
    hide HardenContainer, GetsMount, ListLike, Lookup;
    forall i | 0 <= i < |cs|
      ensures Extends(cs[i], HardenAll(cs)[i]) <==> (GetsMount(cs[i]) ==> ListLike(Lookup(cs[i], MOUNTS)))
    {
      ContainerExtends(cs[i]);
    }
    if Extends(Arr(cs), Arr(HardenAll(cs))) {
      forall c | c in cs ensures GetsMount(c) ==> ListLike(Lookup(c, MOUNTS)) {
        var i :| 0 <= i < |cs| && cs[i] == c;
        assert Extends(cs[i], HardenAll(cs)[i]);
      }
    }
  }

  lemma FieldExtends(v: Json, path: Path)
    requires path != [] && MountsKept(List(v, path))
    ensures Extends(v, HardenField(v, path))
  {
    hide HardenAll, MountsKept;
    ExtendsReflexive(v);
    var l := Lookup(v, path);
    if l.Some? && l.value.Arr? {
      AllExtends(l.value.items);
      SetExtends(v, Arr(HardenAll(l.value.items)), path);
    }
  }

  lemma VolumeExtends(v: Json, base: Path)
    requires ListLike(Lookup(v, base + VOLUMES))
    ensures Extends(v, WithTmpVolume(v, base))
  {
    ExtendsReflexive(v);
    ListGrows(List(v, base + VOLUMES), TMP_VOLUME);
    SetExtends(v, Arr(List(v, base + VOLUMES) + [TMP_VOLUME]), base + VOLUMES);
  }

  lemma PodExtends(v: Json, base: Path)
    requires MountsKept(List(v, base + CONTAINERS)) && MountsKept(List(v, base + INIT_CONTAINERS))
    requires PodNeedsTmp(v, base) ==> ListLike(Lookup(v, base + VOLUMES))
    ensures Extends(v, HardenPodSpec(v, base))
  {
    hide SetAll, HardenField, Lookup, Extends, WithTmpVolume, MountsKept, AnyNeedsTmp, ListLike, Independent,
        HardenedList;
    PodPathsAside(base);
    DefaultsIndependent();
    var s := SetAll(v, base, POD_DEFAULTS);
    SetAllOther(v, base, POD_DEFAULTS, base + CONTAINERS);
    SetAllOther(v, base, POD_DEFAULTS, base + INIT_CONTAINERS);
    SetAllOther(v, base, POD_DEFAULTS, base + VOLUMES);
    SetAllExtends(v, base, POD_DEFAULTS);
    FieldLookup(s, base + CONTAINERS, base + INIT_CONTAINERS);
    FieldLookup(s, base + CONTAINERS, base + VOLUMES);
    var f1 := HardenField(s, base + CONTAINERS);
    FieldLookup(f1, base + INIT_CONTAINERS, base + VOLUMES);
    var f2 := HardenField(f1, base + INIT_CONTAINERS);
    assert List(s, base + CONTAINERS) == List(v, base + CONTAINERS);
    FieldExtends(s, base + CONTAINERS);
    assert List(f1, base + INIT_CONTAINERS) == List(v, base + INIT_CONTAINERS);
    FieldExtends(f1, base + INIT_CONTAINERS);
    ExtendsTransitive(v, s, f1);
    ExtendsTransitive(v, f1, f2);
    if PodNeedsTmp(s, base) {
      VolumeExtends(f2, base);
      ExtendsTransitive(v, f2, WithTmpVolume(f2, base));
    }
  }

  lemma PodLost(v: Json, base: Path, list: Path)
    requires Extends(v, HardenPodSpec(v, base))
    requires list == CONTAINERS || list == INIT_CONTAINERS
    ensures MountsKept(List(v, base + list))
    ensures PodNeedsTmp(v, base) ==> ListLike(Lookup(v, base + VOLUMES))
  {
    hide HardenPodSpec, Extends, HardenAll, MountsKept, PodNeedsTmp, HasTmpVolume;
    var h := HardenPodSpec(v, base);
    HardenedPod(v, base);
    var l := Lookup(v, base + list);
    if l.Some? && l.value.Arr? {
      ExtendsLookup(v, h, base + list);
      AllExtends(l.value.items);
    } else {
      NoMounts();
    }
    var vols := Lookup(v, base + VOLUMES);
    if PodNeedsTmp(v, base) && !ListLike(vols) {
      NoVolume();
      ExtendsLookup(v, h, base + VOLUMES);
      NotAList(vols.value, Lookup(h, base + VOLUMES).value);
    }
  }

  lemma NoMounts()
    ensures MountsKept([])
  {
  }

  lemma NoVolume()
    ensures !HasTmpVolume([])
  {
  }

  /** Hardening keeps every value the author wrote exactly when the places it appends to hold
      lists; a `volumes` or `volumeMounts` of another type would be overwritten. */
  lemma HardenExtends(m: Json)
    ensures Extends(m, Harden(m)) <==> WellTyped(m)
  {
    hide HardenPodSpec, Extends, MountsKept, PodNeedsTmp, ListLike, KindOf;
    ExtendsReflexive(m);
    var base := PodBase(KindOf(m));
    if base.Some? {
      if WellTyped(m) {
        PodExtends(m, base.value);
      }
      if Extends(m, Harden(m)) {
        PodLost(m, base.value, CONTAINERS);
        PodLost(m, base.value, INIT_CONTAINERS);
      }
    }
  }

  /** A Deployment whose author wrote a text where the volumes belong. */
  const MISTYPED: Json := Obj(map["kind" := Str("Deployment"), "spec" := Obj(map["template" := Obj(map["spec" :=
    Obj(map["containers" := Arr([EMPTY]), "volumes" := Str("x")])])])])

  lemma MistypedParts()
    ensures KindOf(MISTYPED) == "Deployment" && PodBase(KindOf(MISTYPED)) == Some(DEPLOYMENT_BASE)
    ensures Lookup(MISTYPED, DEPLOYMENT_BASE + CONTAINERS) == Some(Arr([EMPTY]))
    ensures Lookup(MISTYPED, DEPLOYMENT_BASE + VOLUMES) == Some(Str("x"))
  {
    assert |"kind"| == 4 && |"spec"| == 4 && "kind"[0] == 'k' && "spec"[0] == 's';
    assert |"containers"| == 10 && |"volumes"| == 7;
    var pod := Obj(map["containers" := Arr([EMPTY]), "volumes" := Str("x")]);
    var template := Obj(map["spec" := pod]);
    var spec := Obj(map["template" := template]);
    assert MISTYPED.fields["spec"] == spec && MISTYPED.fields["kind"] == Str("Deployment");
    assert Lookup(MISTYPED, ["kind"]) == Lookup(Str("Deployment"), []);
    var base := DEPLOYMENT_BASE;
    assert base == ["spec"] + ["template"] + ["spec"];
    LookupConcat(MISTYPED, base, CONTAINERS);
    LookupConcat(MISTYPED, base, VOLUMES);
    assert base[1..] == ["template", "spec"] && base[1..][1..] == ["spec"] && base[1..][1..][1..] == [];
    assert Lookup(MISTYPED, base) == Lookup(spec, base[1..]) == Lookup(template, base[1..][1..]) == Lookup(pod, []);
    assert Lookup(MISTYPED, base) == Some(pod);
    assert Lookup(pod, CONTAINERS) == Lookup(pod.fields["containers"], []);
    assert Lookup(pod, VOLUMES) == Lookup(pod.fields["volumes"], []);
  }

  lemma EmptyNeedsTmp()
    ensures NeedsTmp(EMPTY)
  {
    hide SetAll, Settable, Lookup;
    DefaultsIndependent();
    SetAllLookup(EMPTY, [], CONTAINER_DEFAULTS, 1);
    assert CONTAINER_DEFAULTS[1].path == READ_ONLY && [] + READ_ONLY == READ_ONLY;
    EmptyLookup(READ_ONLY);
  }

  /** Its container gets a read-only root, and the volume for /tmp overwrites what was written. */
  lemma VolumesOverwritten()
    ensures Lookup(MISTYPED, DEPLOYMENT_BASE + VOLUMES) == Some(Str("x"))
    ensures Lookup(Harden(MISTYPED), DEPLOYMENT_BASE + VOLUMES) == Some(Arr([TMP_VOLUME]))
    ensures !Extends(MISTYPED, Harden(MISTYPED))
  {
    hide HardenPodSpec, Extends, HardenSecurity, MISTYPED, WellTyped, NeedsTmp, MountsKept, Lookup, HasTmpVolume;
    var m := MISTYPED;
    var base := DEPLOYMENT_BASE;
    MistypedParts();
    HardenedPod(m, base);
    EmptyNeedsTmp();
    assert EMPTY in List(m, base + CONTAINERS);
    NoVolume();
    assert PodNeedsTmp(m, base) && List(m, base + VOLUMES) == [];
    assert [] + [TMP_VOLUME] == [TMP_VOLUME];
    assert Harden(m) == HardenPodSpec(m, base);
    HardenExtends(m);
    NotWellTyped(m);
  }

  lemma NotWellTyped(m: Json)
    requires PodBase(KindOf(m)) == Some(DEPLOYMENT_BASE) && PodNeedsTmp(m, DEPLOYMENT_BASE)
    requires Lookup(m, DEPLOYMENT_BASE + VOLUMES) == Some(Str("x"))
    ensures !WellTyped(m)
  {
    hide KindOf, PodNeedsTmp, Lookup, MountsKept;
  }
}
