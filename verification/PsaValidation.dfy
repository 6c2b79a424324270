/** `ValidatePSA` (`pkg/k8s/psa.go`), and what it reports on manifests that were hardened first. */
module PsaValidation {
  import opened Wrappers
  import opened Text
  import opened Json
  import opened Psa

  datatype Check = RunAsNonRoot | AllowPrivilegeEscalation | CapabilitiesDrop | SeccompProfile

  /** How a report names a container: by its name, or by its list and index. */
  datatype Label = Named(name: string) | Indexed(list: Path, i: nat)

  datatype Violation = Violation(kind: string, name: string, check: Check, container: Label)

  /** What the pod level of a manifest contributes to the checks of its containers. */
  datatype PodFacts = PodFacts(kind: string, name: string, nonRoot: bool, seccomp: bool)

  predicate GoodTrue(x: Json) { x == Bool(true) }

  predicate GoodFalse(x: Json) { x == Bool(false) }

  predicate GoodSeccomp(x: Json) { x == Str("RuntimeDefault") || x == Str("Localhost") }

  predicate ContainsAll(xs: seq<Json>) {
    exists x <- xs :: x.Str? && ToLower(x.s) == "all"
  }

  /** A list of strings, one of which is ALL in any letter case. */
  predicate GoodDrop(x: Json) {
    x.Arr? && (forall y <- x.items :: y.Str?) && ContainsAll(x.items)
  }

  predicate Found(v: Json, path: Path, good: Json -> bool) {
    Lookup(v, path).Some? && good(Lookup(v, path).value)
  }

  function LabelOf(c: Json, list: Path, i: nat): Label {
    match Lookup(c, NAME)
    case Some(Str(n)) => if n != "" then Named(n) else Indexed(list, i)
    case _ => Indexed(list, i)
  }

  function Report(f: PodFacts, l: Label, nonRoot: bool, ape: bool, drop: bool, seccomp: bool): seq<Violation> {
    (if f.nonRoot || nonRoot then [] else [Violation(f.kind, f.name, RunAsNonRoot, l)]) +
    (if ape then [] else [Violation(f.kind, f.name, AllowPrivilegeEscalation, l)]) +
    (if drop then [] else [Violation(f.kind, f.name, CapabilitiesDrop, l)]) +
    (if f.seccomp || seccomp then [] else [Violation(f.kind, f.name, SeccompProfile, l)])
  }

  function ContainerViolations(f: PodFacts, list: Path, i: nat, c: Json): seq<Violation> {
    if !c.Obj? then []
    else Report(f, LabelOf(c, list, i), Found(c, NON_ROOT, GoodTrue), Found(c, APE, GoodFalse),
                Found(c, DROP, GoodDrop), Found(c, SECCOMP, GoodSeccomp))
  }

  function ListViolations(f: PodFacts, list: Path, cs: seq<Json>): seq<Violation> {
    if cs == [] then []
    else ListViolations(f, list, cs[..|cs| - 1]) + ContainerViolations(f, list, |cs| - 1, cs[|cs| - 1])
  }

  function FactsOf(v: Json, base: Path, kind: string, name: string): PodFacts {
    PodFacts(kind, name, Found(v, base + NON_ROOT, GoodTrue), Found(v, base + SECCOMP, GoodSeccomp))
  }

  function PodViolations(v: Json, base: Path, kind: string, name: string): seq<Violation> {
    var f := FactsOf(v, base, kind, name);
    ListViolations(f, CONTAINERS, List(v, base + CONTAINERS)) +
    ListViolations(f, INIT_CONTAINERS, List(v, base + INIT_CONTAINERS))
  }

  function Violations(m: Json): seq<Violation> {
    var base := PodBase(KindOf(m));
    if base.Some? then PodViolations(m, base.value, KindOf(m), NameOf(m)) else []
  }

  function AllViolations(ms: seq<Json>): seq<Violation> {
    if ms == [] then [] else AllViolations(ms[..|ms| - 1]) + Violations(ms[|ms| - 1])
  }

  // ----- the validation methods -----

  /** `containsALL` over the drop list, which must be a list of strings. */
  method DropsAll(c: Json) returns (all: bool)
    ensures all == Found(c, DROP, GoodDrop)
  {
    all := false;
    var drop := Lookup(c, DROP);
    if drop.None? || !drop.value.Arr? || !(forall y <- drop.value.items :: y.Str?) {
      return;
    }
    var xs := drop.value.items;
    for j := 0 to |xs|
      invariant all == ContainsAll(xs[..j])
    {
      assert xs[..j + 1] == xs[..j] + [xs[j]];
      if xs[j].Str? && ToLower(xs[j].s) == "all" {
        all := true;
      }
    }
    assert xs[..|xs|] == xs;
  }

  method CheckContainer(f: PodFacts, list: Path, i: nat, c: Json) returns (r: seq<Violation>)
    ensures r == ContainerViolations(f, list, i, c)
  {
    hide Found, LabelOf;
    r := [];
    if !c.Obj? {
      return;
    }
    var l := LabelOf(c, list, i);
    if !f.nonRoot && !Found(c, NON_ROOT, GoodTrue) {
      r := r + [Violation(f.kind, f.name, RunAsNonRoot, l)];
    }
    if !Found(c, APE, GoodFalse) {
      r := r + [Violation(f.kind, f.name, AllowPrivilegeEscalation, l)];
    }
    var drop := DropsAll(c);
    if !drop {
      r := r + [Violation(f.kind, f.name, CapabilitiesDrop, l)];
    }
    if !f.seccomp && !Found(c, SECCOMP, GoodSeccomp) {
      r := r + [Violation(f.kind, f.name, SeccompProfile, l)];
    }
  }

  method CheckList(f: PodFacts, list: Path, cs: seq<Json>) returns (r: seq<Violation>)
    ensures r == ListViolations(f, list, cs)
  {
    r := [];
    for i := 0 to |cs|
      invariant r == ListViolations(f, list, cs[..i])
    {
      assert cs[..i + 1][..i] == cs[..i];
      var vs := CheckContainer(f, list, i, cs[i]);
      r := r + vs;
    }
    assert cs[..|cs|] == cs;
  }

  /** `ValidatePSA`: no report on a privileged namespace; on any other level the Restricted checks. */
  method ValidatePSA(level: string, ms: seq<Json>) returns (r: seq<Violation>)
    ensures r == if level == "" || level == "privileged" then [] else AllViolations(ms)
  {
    r := [];
    if level == "" || level == "privileged" {
      return;
    }
    for i := 0 to |ms|
      invariant r == AllViolations(ms[..i])
    {
      assert ms[..i + 1][..i] == ms[..i];
      var kind, name := KindOf(ms[i]), NameOf(ms[i]);
      var base := PodBase(kind);
      if base.None? {
        continue;
      }
      var f := FactsOf(ms[i], base.value, kind, name);
      var cs := CheckList(f, CONTAINERS, List(ms[i], base.value + CONTAINERS));
      var inits := CheckList(f, INIT_CONTAINERS, List(ms[i], base.value + INIT_CONTAINERS));
      r := r + (cs + inits);
    }
    assert ms[..|ms|] == ms;
  }

  // ----- what the author wrote -----

  /** The author's tree leaves a good value in place, or leaves room for the default. */
  predicate Permits(v: Json, path: Path, good: Json -> bool)
    requires path != []
  {
    if Lookup(v, path).Some? then good(Lookup(v, path).value) else Settable(v, path)
  }

  function ContainerFaults(f: PodFacts, list: Path, i: nat, c: Json): seq<Violation> {
    if !c.Obj? then []
    else Report(f, LabelOf(c, list, i), Permits(c, NON_ROOT, GoodTrue), Permits(c, APE, GoodFalse),
                Permits(c, DROP, GoodDrop), Permits(c, SECCOMP, GoodSeccomp))
  }

  function ListFaults(f: PodFacts, list: Path, cs: seq<Json>): seq<Violation> {
    if cs == [] then []
    else ListFaults(f, list, cs[..|cs| - 1]) + ContainerFaults(f, list, |cs| - 1, cs[|cs| - 1])
  }

  /** The faults of a manifest as its author wrote it: checks that no default can satisfy. */
  function AuthorFaults(m: Json): seq<Violation> {
    var base := PodBase(KindOf(m));
    if base.None? then []
    else
      var b := base.value;
      var f := PodFacts(KindOf(m), NameOf(m), Permits(m, b + NON_ROOT, GoodTrue), Permits(m, b + SECCOMP, GoodSeccomp));
      ListFaults(f, CONTAINERS, List(m, b + CONTAINERS)) + ListFaults(f, INIT_CONTAINERS, List(m, b + INIT_CONTAINERS))
  }

  function AllFaults(ms: seq<Json>): seq<Violation> {
    if ms == [] then [] else AllFaults(ms[..|ms| - 1]) + AuthorFaults(ms[|ms| - 1])
  }

  // ----- hardened containers -----

  /** After hardening a container, each default is found where the author left room for it. */
  lemma HardenedContainer(c: Json, i: nat)
    requires c.Obj? && i < |CONTAINER_DEFAULTS|
    ensures var d := CONTAINER_DEFAULTS[i];
            d.path != [] && Lookup(HardenContainer(c), d.path) == After(c, d.path, d.value)
    ensures Lookup(HardenContainer(c), NAME) == Lookup(c, NAME)
    ensures HardenContainer(c).Obj?
  {
    hide SetAll, Lookup, SetNested, Independent, Settable;
    DefaultsIndependent();
    var d := CONTAINER_DEFAULTS[i];
    assert d in CONTAINER_DEFAULTS;
    SetAllLookup(c, [], CONTAINER_DEFAULTS, i);
    SetAllExtends(c, [], CONTAINER_DEFAULTS);
    assert [] + d.path == d.path;
    MountsUntouched(c);
    var s := HardenSecurity(c);
    var mounted := Arr(List(s, MOUNTS) + [TMP_MOUNT]);
    SetIndependent(s, mounted, MOUNTS, d.path);
    SetIndependent(s, mounted, MOUNTS, NAME);
    SetObj(s, mounted, MOUNTS);
  }

  lemma DropAllGood()
    ensures GoodDrop(Arr([Str("ALL")]))
  {
    var xs := [Str("ALL")];
    assert ToLower("ALL") == "all";
    assert xs[0] in xs;
  }

  lemma ContainerAgrees(f: PodFacts, list: Path, i: nat, c: Json)
    ensures ContainerViolations(f, list, i, HardenContainer(c)) == ContainerFaults(f, list, i, c)
  {
    if c.Obj? {
      hide HardenContainer, Lookup, Settable, GoodDrop;
      HardenedContainer(c, 0);
      HardenedContainer(c, 2);
      HardenedContainer(c, 3);
      HardenedContainer(c, 4);
      DropAllGood();
    }
  }

  lemma {:induction false} ListAgrees(f: PodFacts, list: Path, cs: seq<Json>)
    ensures ListViolations(f, list, HardenAll(cs)) == ListFaults(f, list, cs)
  {
    hide HardenContainer, ContainerViolations, ContainerFaults;
    if cs != [] {
      var n := |cs| - 1;
      assert HardenAll(cs)[..n] == HardenAll(cs[..n]);
      ListAgrees(f, list, cs[..n]);
      ContainerAgrees(f, list, n, cs[n]);
    }
  }

  // ----- hardened pods -----

  function HardenedList(x: Option<Json>): Option<Json> {
    if x.Some? && x.value.Arr? then Some(Arr(HardenAll(x.value.items))) else x
  }

  lemma SiblingSettable(v: Json, base: Path, x: Path, y: Path)
    requires |x| == 1 && |y| == 1 && Lookup(v, base + x).Some?
    ensures Settable(v, base + y)
  {
    LookupConcat(v, base, x);
    SetConcat(v, Null, base, y);
  }

  lemma FieldLookup(v: Json, path: Path, q: Path)
    requires path != []
    ensures Lookup(HardenField(v, path), path) == HardenedList(Lookup(v, path))
    ensures Independent(path, q) ==>
              Lookup(HardenField(v, path), q) == Lookup(v, q) && Settable(HardenField(v, path), q) == Settable(v, q)
  {
    hide HardenAll;
    var l := Lookup(v, path);
    if l.Some? && l.value.Arr? {
      LookupSettable(v, path);
      SetLookup(v, Arr(HardenAll(l.value.items)), path);
      if Independent(path, q) {
        SetIndependent(v, Arr(HardenAll(l.value.items)), path, q);
      }
    }
  }

  lemma VolumeLookup(v: Json, base: Path, q: Path)
    requires Independent(base + VOLUMES, q)
    ensures Lookup(WithTmpVolume(v, base), q) == Lookup(v, q)
  {
    SetIndependent(v, Arr(List(v, base + VOLUMES) + [TMP_VOLUME]), base + VOLUMES, q);
  }

  /** A path outside the lists and volumes that hardening rewrites. */
  ghost predicate Aside(base: Path, q: Path) {
    q != [] && Independent(base + CONTAINERS, q) && Independent(base + INIT_CONTAINERS, q) &&
        Independent(base + VOLUMES, q)
  }

  lemma HardenedAside(v: Json, base: Path, q: Path)
    requires Aside(base, q)
    ensures Lookup(HardenPodSpec(v, base), q) == Lookup(SetAll(v, base, POD_DEFAULTS), q)
  {
    hide SetAll, HardenField, WithTmpVolume, Lookup, PodNeedsTmp;
    var s := SetAll(v, base, POD_DEFAULTS);
    FieldLookup(s, base + CONTAINERS, q);
    var f := HardenField(s, base + CONTAINERS);
    FieldLookup(f, base + INIT_CONTAINERS, q);
    VolumeLookup(HardenField(f, base + INIT_CONTAINERS), base, q);
  }

  lemma PodPathsAside(base: Path)
    ensures Aside(base, base + NON_ROOT) && Aside(base, base + SECCOMP)
    ensures Independent(base + CONTAINERS, base + INIT_CONTAINERS) &&
              Independent(base + INIT_CONTAINERS, base + CONTAINERS)
    ensures Independent(base + VOLUMES, base + CONTAINERS) && Independent(base + VOLUMES, base + INIT_CONTAINERS)
    ensures Independent(base + CONTAINERS, base + VOLUMES) && Independent(base + INIT_CONTAINERS, base + VOLUMES)
    ensures forall d <- POD_DEFAULTS ::
              d.path != [] && Independent(base + d.path, base + CONTAINERS) &&
              Independent(base + d.path, base + INIT_CONTAINERS) &&
              Independent(base + d.path, base + VOLUMES)
  {
    FieldNamesDiffer();
    DefaultsIndependent();
    forall p: Path, q: Path | Independent(p, q) ensures Independent(base + p, base + q) {
      IndependentBelow(base, p, q);
    }
  }

  /** What hardening leaves at each place of the pod spec, in terms of the original. */
  lemma HardenedPod(v: Json, base: Path)
    ensures var h := HardenPodSpec(v, base);
            && Lookup(h, base + CONTAINERS) == HardenedList(Lookup(v, base + CONTAINERS))
            && Lookup(h, base + INIT_CONTAINERS) == HardenedList(Lookup(v, base + INIT_CONTAINERS))
            && Lookup(h, base + NON_ROOT) == After(v, base + NON_ROOT, Bool(true))
            && Lookup(h, base + SECCOMP) == After(v, base + SECCOMP, Str("RuntimeDefault"))
            && Lookup(h, base + VOLUMES) ==
               (if PodNeedsTmp(v, base) && !HasTmpVolume(List(v, base + VOLUMES))
                then Some(Arr(List(v, base + VOLUMES) + [TMP_VOLUME])) else Lookup(v, base + VOLUMES))
  {
    hide SetAll, HardenField, Lookup, Independent, HardenAll, NeedsTmp, Settable, HasTmpVolume, SetNested;
    PodPathsAside(base);
    DefaultsIndependent();
    var s := SetAll(v, base, POD_DEFAULTS);
    SetAllOther(v, base, POD_DEFAULTS, base + CONTAINERS);
    SetAllOther(v, base, POD_DEFAULTS, base + INIT_CONTAINERS);
    SetAllOther(v, base, POD_DEFAULTS, base + VOLUMES);
    assert PodNeedsTmp(s, base) == PodNeedsTmp(v, base);
    SetAllLookup(v, base, POD_DEFAULTS, 0);
    SetAllLookup(v, base, POD_DEFAULTS, 1);
    HardenedAside(v, base, base + NON_ROOT);
    HardenedAside(v, base, base + SECCOMP);
    var f1 := HardenField(s, base + CONTAINERS);
    FieldLookup(s, base + CONTAINERS, base + INIT_CONTAINERS);
    FieldLookup(s, base + CONTAINERS, base + VOLUMES);
    var f2 := HardenField(f1, base + INIT_CONTAINERS);
    FieldLookup(f1, base + INIT_CONTAINERS, base + CONTAINERS);
    FieldLookup(f1, base + INIT_CONTAINERS, base + VOLUMES);
    VolumeLookup(f2, base, base + CONTAINERS);
    VolumeLookup(f2, base, base + INIT_CONTAINERS);
    if PodNeedsTmp(v, base) {
      NeedsTmpSettable(v, base);
      SetLookup(f2, Arr(List(f2, base + VOLUMES) + [TMP_VOLUME]), base + VOLUMES);
    }
  }

  lemma NeedsTmpSettable(v: Json, base: Path)
    requires PodNeedsTmp(v, base)
    ensures Settable(v, base + VOLUMES)
  {
    if Lookup(v, base + CONTAINERS).Some? {
      SiblingSettable(v, base, CONTAINERS, VOLUMES);
    } else {
      SiblingSettable(v, base, INIT_CONTAINERS, VOLUMES);
    }
  }

  lemma HeaderAside(m: Json, base: Path, q: Path)
    requires base == DEPLOYMENT_BASE || base == CRON_JOB_BASE
    requires q == ["kind"] || q == ["metadata", "name"] || q == ["apiVersion"]
    ensures Lookup(HardenPodSpec(m, base), q) == Lookup(m, q)
  {
    hide HardenPodSpec, SetAll;
    assert |"spec"| == 4 && "spec"[0] == 's' && "kind"[0] == 'k' && "metadata"[0] == 'm' && "apiVersion"[0] == 'a';
    assert q[0] != "spec" && base[0] == "spec";
    forall p: Path ensures Independent(base + p, q) {
      assert (base + p)[0] == base[0];
    }
    HardenedAside(m, base, q);
    DefaultsIndependent();
    SetAllOther(m, base, POD_DEFAULTS, q);
  }

  /** Hardening leaves kind and name alone. */
  lemma HeaderKept(m: Json)
    ensures KindOf(Harden(m)) == KindOf(m) && NameOf(Harden(m)) == NameOf(m)
  {
    hide HardenPodSpec, Lookup;
    var base := PodBase(KindOf(m));
    if base.Some? {
      HeaderAside(m, base.value, ["kind"]);
      HeaderAside(m, base.value, ["metadata", "name"]);
    }
  }

  /** On a hardened manifest of any shape, the validator reports exactly what the author's own
      tree rules out: a bad value that is present, or something other than an object where the
      default would have to go. */
  lemma HardenedViolations(m: Json)
    ensures Violations(Harden(m)) == AuthorFaults(m)
  {
    hide HardenPodSpec, Lookup, HardenAll, Settable, GoodDrop, ListViolations, ListFaults, GoodSeccomp, GoodTrue;
    HeaderKept(m);
    var base := PodBase(KindOf(m));
    if base.Some? {
      var b := base.value;
      HardenedPod(m, b);
      GoodDefaults();
      var f := PodFacts(KindOf(m), NameOf(m), Permits(m, b + NON_ROOT, GoodTrue), Permits(m, b + SECCOMP, GoodSeccomp));
      assert FactsOf(Harden(m), b, KindOf(m), NameOf(m)) == f;
      ListAgrees(f, CONTAINERS, List(m, b + CONTAINERS));
      ListAgrees(f, INIT_CONTAINERS, List(m, b + INIT_CONTAINERS));
      assert HardenAll([]) == [] by { HardenNone(); }
    }
  }

  lemma GoodDefaults()
    ensures GoodTrue(Bool(true)) && GoodSeccomp(Str("RuntimeDefault"))
  {
  }

  lemma HardenNone()
    ensures HardenAll([]) == []
  {
  }

  lemma {:induction false} HardenedAllViolations(ms: seq<Json>, hs: seq<Json>)
    requires |hs| == |ms| && forall i :: 0 <= i < |ms| ==> hs[i] == Harden(ms[i])
    ensures AllViolations(hs) == AllFaults(ms)
  {
    hide Violations, AuthorFaults, Harden;
    if ms != [] {
      HardenedAllViolations(ms[..|ms| - 1], hs[..|hs| - 1]);
      HardenedViolations(ms[|ms| - 1]);
    }
  }

  // ----- which manifests pass -----

  /** A container that the author left without a fault, given what the pod level settles. */
  predicate Faultless(f: PodFacts, c: Json) {
    c.Obj? ==>
      && Permits(c, APE, GoodFalse) && Permits(c, DROP, GoodDrop)
      && (f.nonRoot || Permits(c, NON_ROOT, GoodTrue)) && (f.seccomp || Permits(c, SECCOMP, GoodSeccomp))
  }

  lemma ContainerFaultless(f: PodFacts, list: Path, i: nat, c: Json)
    ensures ContainerFaults(f, list, i, c) == [] <==> Faultless(f, c)
  {
    hide Permits, LabelOf;
  }

  lemma {:induction false} ListFaultless(f: PodFacts, list: Path, cs: seq<Json>)
    ensures ListFaults(f, list, cs) == [] <==> forall c <- cs :: Faultless(f, c)
  {
    hide Faultless, ContainerFaults;
    if cs != [] {
      ListFaultless(f, list, cs[..|cs| - 1]);
      ContainerFaultless(f, list, |cs| - 1, cs[|cs| - 1]);
      assert cs == cs[..|cs| - 1] + [cs[|cs| - 1]];
    }
  }

  function AuthorFacts(m: Json, base: Path): PodFacts
    requires base != []
  {
    PodFacts(KindOf(m), NameOf(m), Permits(m, base + NON_ROOT, GoodTrue), Permits(m, base + SECCOMP, GoodSeccomp))
  }

  /** A manifest passes once hardened exactly when none of its containers is at fault. */
  lemma HardenedPasses(m: Json)
    ensures Violations(Harden(m)) == [] <==>
            (PodBase(KindOf(m)).Some? ==>
               var base := PodBase(KindOf(m)).value;
               var f := AuthorFacts(m, base);
               forall c <- List(m, base + CONTAINERS) + List(m, base + INIT_CONTAINERS) :: Faultless(f, c))
  {
    hide Violations, Harden, Permits, Faultless, ListFaults, KindOf, NameOf;
    HardenedViolations(m);
    if PodBase(KindOf(m)).Some? {
      var base := PodBase(KindOf(m)).value;
      var f := AuthorFacts(m, base);
      ListFaultless(f, CONTAINERS, List(m, base + CONTAINERS));
      ListFaultless(f, INIT_CONTAINERS, List(m, base + INIT_CONTAINERS));
    }
  }

  /** The author said nothing at this path and left room for the default. */
  predicate Unset(v: Json, path: Path)
    requires path != []
  {
    Lookup(v, path).None? && Settable(v, path)
  }

  /** A workload that leaves the checked fields unset passes, whatever else its security contexts say. */
  lemma UnsetPasses(m: Json, base: Path)
    requires PodBase(KindOf(m)) == Some(base)
    requires Unset(m, base + NON_ROOT) && Unset(m, base + SECCOMP)
    requires forall c <- List(m, base + CONTAINERS) + List(m, base + INIT_CONTAINERS) ::
               c.Obj? ==> Unset(c, APE) && Unset(c, DROP)
    ensures Violations(Harden(m)) == []
  {
    hide Violations, Harden, Lookup, Settable, List;
    HardenedPasses(m);
  }

  predicate Silent(v: Json) {
    v.Obj? ==> "securityContext" !in v.fields
  }

  lemma SilentUnset(c: Json, path: Path)
    requires c.Obj? && Silent(c) && |path| > 1 && path[0] == "securityContext"
    ensures Unset(c, path)
  {
  }

  predicate GetsDefaults(c: Json) {
    forall d <- CONTAINER_DEFAULTS :: d.path != [] ==> Lookup(HardenContainer(c), d.path) == Some(d.value)
  }

  /** A container that says nothing about security gets each default, as its literal value. */
  lemma SilentContainerHardened(c: Json)
    requires c.Obj? && Silent(c)
    ensures GetsDefaults(c)
    ensures var h := HardenContainer(c);
            && Lookup(h, ["securityContext", "allowPrivilegeEscalation"]) == Some(Bool(false))
            && Lookup(h, ["securityContext", "readOnlyRootFilesystem"]) == Some(Bool(true))
            && Lookup(h, ["securityContext", "runAsNonRoot"]) == Some(Bool(true))
            && Lookup(h, ["securityContext", "capabilities", "drop"]) == Some(Arr([Str("ALL")]))
            && Lookup(h, ["securityContext", "seccompProfile", "type"]) == Some(Str("RuntimeDefault"))
  {
    hide HardenContainer, Lookup, Settable, Silent;
    var ds := CONTAINER_DEFAULTS;
    forall i | 0 <= i < |ds|
      ensures ds[i].path != [] ==> Lookup(HardenContainer(c), ds[i].path) == Some(ds[i].value)
    {
      HardenedContainer(c, i);
      SilentUnset(c, ds[i].path);
    }
    var h := HardenContainer(c);
    assert Lookup(h, ds[0].path) == Some(ds[0].value) && Lookup(h, ds[1].path) == Some(ds[1].value);
    assert Lookup(h, ds[2].path) == Some(ds[2].value) && Lookup(h, ds[3].path) == Some(ds[3].value);
    assert Lookup(h, ds[4].path) == Some(ds[4].value);
  }

  /** In particular, a workload without any security context always passes once hardened, and each
      of its containers gets every default. */
  lemma SilentPasses(m: Json, base: Path, pod: Json)
    requires PodBase(KindOf(m)) == Some(base)
    requires Lookup(m, base) == Some(pod) && pod.Obj? && Silent(pod)
    requires forall c <- List(m, base + CONTAINERS) + List(m, base + INIT_CONTAINERS) :: Silent(c)
    ensures Violations(Harden(m)) == []
    ensures forall c <- List(m, base + CONTAINERS) + List(m, base + INIT_CONTAINERS) :: c.Obj? ==> GetsDefaults(c)
  {
    hide Violations, Harden, Silent, Unset, List, Lookup, GetsDefaults;
    SilentPod(m, base, pod, NON_ROOT);
    SilentPod(m, base, pod, SECCOMP);
    forall c | c in List(m, base + CONTAINERS) + List(m, base + INIT_CONTAINERS) && c.Obj?
      ensures Unset(c, APE) && Unset(c, DROP) && GetsDefaults(c)
    {
      SilentUnset(c, APE);
      SilentUnset(c, DROP);
      SilentContainerHardened(c);
    }
    UnsetPasses(m, base);
  }

  lemma SilentPod(m: Json, base: Path, pod: Json, path: Path)
    requires Lookup(m, base) == Some(pod) && pod.Obj? && Silent(pod)
    requires |path| > 1 && path[0] == "securityContext"
    ensures Unset(m, base + path)
  {
    LookupConcat(m, base, path);
    SetConcat(m, Null, base, path);
  }
}
