/** What `wf_apply` and `wf_remove` leave in the cluster, for every pattern of API failures. */
module ApplyProperties {
  import opened Wrappers
  import opened Text
  import opened Json
  import opened Psa
  import PV = PsaValidation
  import opened WorkflowApply

  // ----- keys -----

  /** The text key tells resources apart, given types whose names hold no slash. */
  lemma KeyTextInjective(a: Key, b: Key)
    requires SlashFree(a.gvr) && SlashFree(b.gvr)
    ensures KeyText(a) == KeyText(b) ==> a == b
  {
    if KeyText(a) == KeyText(b) {
      var ra, rb := a.gvr.resource + ['/'] + a.name, b.gvr.resource + ['/'] + b.name;
      assert KeyText(a) == a.gvr.group + ['/'] + ra;
      assert KeyText(b) == b.gvr.group + ['/'] + rb;
      FirstSeparator(a.gvr.group, ra, b.gvr.group, rb, '/');
      FirstSeparator(a.gvr.resource, a.name, b.gvr.resource, b.name, '/');
    }
  }

  lemma NamesHoldNoSlash()
    ensures '/' !in "apps" && '/' !in "batch" && '/' !in "networking.k8s.io" && '/' !in ""
    ensures '/' !in "deployments" && '/' !in "services" && '/' !in "configmaps" && '/' !in "secrets"
    ensures '/' !in "jobs" && '/' !in "cronjobs" && '/' !in "networkpolicies" && '/' !in "ingresses"
    ensures '/' !in "persistentvolumeclaims"
  {
  }

  lemma KnownSlashFree()
    ensures forall g <- KNOWN_GVRS :: SlashFree(g)
  {
    NamesHoldNoSlash();
    forall i | 0 <= i < |KNOWN_GVRS| ensures SlashFree(KNOWN_GVRS[i]) {
    }
  }

  // ----- labels -----

  lemma HeadersDiffer()
    ensures "name" != "namespace" && "name" != "labels" && "namespace" != "labels"
  {
    assert |"name"| == 4 && |"namespace"| == 9 && |"labels"| == 6;
  }

  /** Every object sent to the server carries the release label. */
  lemma PreparedIsLabelled(m: Json, ns: string, release: string)
    requires NameOf(m) != ""
    ensures Labelled(Prepared(m, ns, release), release)
  {
    var at, lb := ["metadata", "namespace"], ["metadata", "labels"];
    var placed := SetNested(m, Str(ns), at);
    var named := Lookup(m, ["metadata", "name"]);
    assert ["metadata"] + ["name"] == ["metadata", "name"] && ["metadata"] + ["labels"] == lb &&
        ["metadata"] + ["namespace"] == at;
    LookupConcat(m, ["metadata"], ["name"]);
    SetConcat(m, Null, ["metadata"], ["labels"]);
    HeadersDiffer();
    assert at[1..][0] != lb[1..][0];
    SetIndependent(m, Str(ns), at, lb);
    var labels := Obj(LabelsOf(placed)[RELEASE_LABEL := Str(release)]);
    SetLookup(placed, labels, lb);
  }

  /** Preparing a manifest changes its namespace and adds the release label; other labels and
      everything outside the two fields stay. */
  lemma PreparedKeeps(m: Json, ns: string, release: string, q: Path)
    requires NameOf(m) != ""
    ensures var r := Prepared(m, ns, release);
            && Lookup(r, ["metadata", "namespace"]) == Some(Str(ns))
            && LabelsOf(r) == LabelsOf(m)[RELEASE_LABEL := Str(release)]
            && (Independent(["metadata", "namespace"], q) && Independent(["metadata", "labels"], q) ==>
                Lookup(r, q) == Lookup(m, q))
  {
    var at, lb := ["metadata", "namespace"], ["metadata", "labels"];
    var placed := SetNested(m, Str(ns), at);
    assert ["metadata"] + ["name"] == ["metadata", "name"] && ["metadata"] + ["labels"] == lb &&
        ["metadata"] + ["namespace"] == at;
    LookupConcat(m, ["metadata"], ["name"]);
    SetConcat(m, Null, ["metadata"], ["labels"]);
    SetConcat(m, Null, ["metadata"], ["namespace"]);
    HeadersDiffer();
    assert at[1..][0] != lb[1..][0];
    SetIndependent(m, Str(ns), at, lb);
    SetLookup(m, Str(ns), at);
    var labels := Obj(LabelsOf(placed)[RELEASE_LABEL := Str(release)]);
    SetLookup(placed, labels, lb);
    SetIndependent(placed, labels, lb, at);
    if Independent(at, q) && Independent(lb, q) {
      SetIndependent(m, Str(ns), at, q);
      SetIndependent(placed, labels, lb, q);
    }
  }

  // ----- the apply loop -----

  /** What the first `n` manifests write, later ones winning. */
  function Writes(ms: seq<Json>, ns: string, release: string, env: Env): Store {
    if ms == [] then map[]
    else
      var before := Writes(ms[..|ms| - 1], ns, release, env);
      var t := Target(ms[|ms| - 1], env.discovery);
      if t.Ok? then before[t.value := Prepared(ms[|ms| - 1], ns, release)] else before
  }

  /** Every written resource has a type from discovery and carries the label. */
  lemma {:induction false} WritesLabelled(ms: seq<Json>, ns: string, release: string, env: Env)
    requires forall d <- env.discovery :: SlashFree(env.discovery[d])
    ensures var w := Writes(ms, ns, release, env);
            forall k <- w :: SlashFree(k.gvr) && Labelled(w[k], release)
  {
    hide Labelled, Prepared, SlashFree, NameOf, KindOf, ApiVersionOf;
    if ms != [] {
      WritesLabelled(ms[..|ms| - 1], ns, release, env);
      var t := Target(ms[|ms| - 1], env.discovery);
      if t.Ok? {
        PreparedIsLabelled(ms[|ms| - 1], ns, release);
      }
    }
  }

  lemma OneWrite(p: Progress, m: Json, i: nat, ns: string, release: string, env: Env)
    requires p.err.None?
    ensures var q := ApplyOne(p, m, i, ns, release, env);
            && (q.err.Some? ==> q.store == p.store && q.created == p.created && q.updated == p.updated)
            && (q.err.None? ==>
                  && Target(m, env.discovery).Ok?
                  && var k := Target(m, env.discovery).value;
                     && q.store == p.store[k := Prepared(m, ns, release)]
                     && q.applied == p.applied + {KeyText(k)}
                     && q.created == p.created + (if k in p.store then 0 else 1)
                     && q.updated == p.updated + (if k in p.store then 1 else 0))
  {
    hide Target, Prepared, KeyText;
  }

  lemma WritesSnoc(ms: seq<Json>, m: Json, ns: string, release: string, env: Env)
    ensures Target(m, env.discovery).Ok? ==>
              Writes(ms + [m], ns, release, env) ==
              Writes(ms, ns, release, env)[Target(m, env.discovery).value := Prepared(m, ns, release)]
  {
    hide Target, Prepared;
    assert (ms + [m])[..|ms|] == ms;
  }

  function KeyTexts(w: Store): set<string> {
    set k <- w :: KeyText(k)
  }

  lemma OverUpdate(s: Store, w: Store, k: Key, x: Json)
    ensures (s + w)[k := x] == s + w[k := x]
    ensures KeyTexts(w[k := x]) == KeyTexts(w) + {KeyText(k)}
  {
    hide KeyText;
  }

  /** The state of the loop before its last manifest. */
  function Before(s: Store, ms: seq<Json>, ns: string, release: string, env: Env): Progress
    requires ms != []
  {
    ApplyAll(s, ms[..|ms| - 1], ns, release, env)
  }

  lemma ApplyUnfold(s: Store, ms: seq<Json>, ns: string, release: string, env: Env)
    requires ms != []
    ensures var q := Before(s, ms, ns, release, env);
            ApplyAll(s, ms, ns, release, env) ==
                if q.err.Some? then q else ApplyOne(q, ms[|ms| - 1], |ms| - 1, ns, release, env)
  {
    hide ApplyOne;
  }

  lemma {:induction false} ApplyCounts(s: Store, ms: seq<Json>, ns: string, release: string, env: Env)
    ensures var p := ApplyAll(s, ms, ns, release, env);
            && p.created + p.updated <= |ms|
            && (p.err.None? ==> p.created + p.updated == |ms|)
            && |p.store| == |s| + p.created
  {
    if ms != [] {
      hide *;
      var i := |ms| - 1;
      var q := ApplyAll(s, ms[..i], ns, release, env);
      ApplyCounts(s, ms[..i], ns, release, env);
      BeforeIs(s, ms, ns, release, env);
      ApplyUnfold(s, ms, ns, release, env);
      if q.err.None? {
        OneWrite(q, ms[i], i, ns, release, env);
        if Target(ms[i], env.discovery).Ok? {
          StoreGrows(q.store, Target(ms[i], env.discovery).value, Prepared(ms[i], ns, release));
        }
      }
    }
  }

  lemma BeforeIs(s: Store, ms: seq<Json>, ns: string, release: string, env: Env)
    requires ms != []
    ensures Before(s, ms, ns, release, env) == ApplyAll(s, ms[..|ms| - 1], ns, release, env)
  {
    hide ApplyAll;
  }

  lemma ApplyNone(s: Store, ns: string, release: string, env: Env)
    ensures ApplyAll(s, [], ns, release, env) == Progress(s, {}, 0, 0, None)
  {
  }

  /** The apply loop writes a prefix of the manifests, all of them unless it fails; it counts
      one creation or update each, and a creation for each key that is new. */
  lemma ApplyWrites(s: Store, ms: seq<Json>, ns: string, release: string, env: Env)
    ensures var p := ApplyAll(s, ms, ns, release, env);
            var n := p.created + p.updated;
            && n <= |ms| && (p.err.None? ==> n == |ms|)
            && p.store == s + Writes(ms[..n], ns, release, env)
            && |p.store| == |s| + p.created
            && (p.err.None? ==> p.applied == KeyTexts(Writes(ms, ns, release, env)))
  {
    hide ApplyAll, Writes, KeyTexts;
    ApplyCounts(s, ms, ns, release, env);
    var n := ApplyStore(s, ms, ns, release, env);
    assert WritesFirst(s, ApplyAll(s, ms, ns, release, env), ms, n, ns, release, env);
    ApplyKeys(s, ms, ns, release, env);
  }

  lemma {:induction false} ApplyStoreAll(s: Store, ms: seq<Json>, ns: string, release: string, env: Env)
    ensures var p := ApplyAll(s, ms, ns, release, env);
            p.err.None? ==> p.store == s + Writes(ms, ns, release, env)
  {
    hide *;
    if ms == [] {
      ApplyNone(s, ns, release, env);
      assert ms[..0] == ms;
      NoWrites(ms, ns, release, env);
      assert s + map[] == s;
    } else {
      var i := |ms| - 1;
      ApplyStoreAll(s, ms[..i], ns, release, env);
      BeforeIs(s, ms, ns, release, env);
      ApplyUnfold(s, ms, ns, release, env);
      var q := ApplyAll(s, ms[..i], ns, release, env);
      if q.err.None? && ApplyAll(s, ms, ns, release, env).err.None? {
        OneWrite(q, ms[i], i, ns, release, env);
        WritesSnoc(ms[..i], ms[i], ns, release, env);
        assert ms[..i] + [ms[i]] == ms;
        OverUpdate(s, Writes(ms[..i], ns, release, env), Target(ms[i], env.discovery).value,
            Prepared(ms[i], ns, release));
      }
    }
  }

  predicate WritesFirst(s: Store, p: Progress, ms: seq<Json>, n: nat, ns: string, release: string, env: Env) {
    n <= |ms| && p.created + p.updated == n && p.store == s + Writes(ms[..n], ns, release, env)
  }

  lemma {:induction false} ApplyStore(s: Store, ms: seq<Json>, ns: string, release: string, env: Env) returns (n: nat)
    ensures WritesFirst(s, ApplyAll(s, ms, ns, release, env), ms, n, ns, release, env)
  {
    hide *;
    ApplyCounts(s, ms, ns, release, env);
    var p := ApplyAll(s, ms, ns, release, env);
    if p.err.None? {
      ApplyStoreAll(s, ms, ns, release, env);
      n := |ms|;
      WritesAll(s, p, ms, ns, release, env);
    } else {
      NoneOk(s, ns, release, env);
      var i := |ms| - 1;
      var q := ApplyAll(s, ms[..i], ns, release, env);
      BeforeIs(s, ms, ns, release, env);
      ApplyUnfold(s, ms, ns, release, env);
      n := ApplyStore(s, ms[..i], ns, release, env);
      if q.err.None? {
        OneWrite(q, ms[i], i, ns, release, env);
      }
      WritesShorter(s, q, p, ms, n, ns, release, env);
    }
  }

  lemma NoneOk(s: Store, ns: string, release: string, env: Env)
    ensures ApplyAll(s, [], ns, release, env).err.None?
  {
  }

  lemma WritesAll(s: Store, p: Progress, ms: seq<Json>, ns: string, release: string, env: Env)
    requires p.created + p.updated == |ms| && p.store == s + Writes(ms, ns, release, env)
    ensures WritesFirst(s, p, ms, |ms|, ns, release, env)
  {
    hide Writes;
    assert ms[..|ms|] == ms;
  }

  lemma WritesShorter(s: Store, q: Progress, p: Progress, ms: seq<Json>, n: nat, ns: string, release: string, env: Env)
    requires ms != [] && WritesFirst(s, q, ms[..|ms| - 1], n, ns, release, env)
    requires p.store == q.store && p.created == q.created && p.updated == q.updated
    ensures WritesFirst(s, p, ms, n, ns, release, env)
  {
    hide Writes;
    assert ms[..|ms| - 1][..n] == ms[..n];
  }

  lemma {:induction false} ApplyKeys(s: Store, ms: seq<Json>, ns: string, release: string, env: Env)
    ensures var p := ApplyAll(s, ms, ns, release, env);
            p.err.None? ==> p.applied == KeyTexts(Writes(ms, ns, release, env))
  {
    hide *;
    if ms == [] {
      ApplyNone(s, ns, release, env);
      assert ms[..0] == ms;
      NoWrites(ms, ns, release, env);
      NoKeyTexts();
    } else {
      var i := |ms| - 1;
      ApplyKeys(s, ms[..i], ns, release, env);
      BeforeIs(s, ms, ns, release, env);
      ApplyUnfold(s, ms, ns, release, env);
      var q := ApplyAll(s, ms[..i], ns, release, env);
      if q.err.None? && ApplyAll(s, ms, ns, release, env).err.None? {
        OneWrite(q, ms[i], i, ns, release, env);
        WritesSnoc(ms[..i], ms[i], ns, release, env);
        assert ms[..i] + [ms[i]] == ms;
        OverUpdate(s, Writes(ms[..i], ns, release, env), Target(ms[i], env.discovery).value,
            Prepared(ms[i], ns, release));
      }
    }
  }

  lemma NoKeyTexts()
    ensures KeyTexts(map[]) == {}
  {
  }

  lemma StoreGrows(s: Store, k: Key, x: Json)
    ensures |s[k := x]| == |s| + if k in s then 0 else 1
  {
    assert s[k := x].Keys == s.Keys + {k};
    assert |s[k := x].Keys| == |s[k := x]| && |s.Keys| == |s|;
    if k in s {
      assert s.Keys + {k} == s.Keys;
    }
  }

  // ----- whole calls -----

  /** Old labelled resources that no garbage collection reaches. */
  function Unreachable(s: Store, release: string, env: Env): set<Key> {
    set k | k in LabelledKeys(s, release) && (k.gvr !in KNOWN_GVRS || k.gvr in env.listFails || k in env.deleteFails)
  }

  lemma GarbageAfter(s: Store, w: Store, release: string, env: Env)
    requires forall k <- w :: SlashFree(k.gvr) && Labelled(w[k], release)
    ensures var keep := KeyTexts(w);
            Garbage(s + w, release, keep, env) == LabelledKeys(s, release) - w.Keys - Unreachable(s, release, env)
  {
    hide Labelled, KeyText, SlashFree;
    KnownSlashFree();
    var keep := KeyTexts(w);
    forall k | k in s + w && k.gvr in KNOWN_GVRS ensures KeyText(k) in keep <==> k in w {
      if KeyText(k) in keep {
        var x :| x in w && KeyText(x) == KeyText(k);
        KeyTextInjective(x, k);
      }
    }
  }

  /** A successful apply, whatever failed to list or delete: the release labels exactly the
      applied manifests plus the old resources collection could not reach; every manifest is
      stored; anything that was neither applied nor labelled is untouched; the counts add up. */
  lemma ApplyReconciles(s: Store, ms: seq<Json>, ns: string, release: string, env: Env)
    requires Apply(s, ms, ns, release, env).result.Ok?
    requires forall d <- env.discovery :: SlashFree(env.discovery[d])
    ensures var o := Apply(s, ms, ns, release, env);
            var w := Writes(HardenEach(ms), ns, release, env);
            var c := o.result.value;
            && LabelledKeys(o.store, release) == w.Keys + Unreachable(s, release, env)
            && (forall k <- w :: k in o.store && o.store[k] == w[k])
            && (forall k :: k !in w && k !in LabelledKeys(s, release) ==>
                  (k in o.store <==> k in s) && (k in s ==> o.store[k] == s[k]))
            && c.created + c.updated == |ms|
            && |o.store| + c.deleted == |s| + c.created
  {
    hide *;
    HardenLength(ms);
    var hs := HardenEach(ms);
    var p := ApplyAll(s, hs, ns, release, env);
    ApplyParts(s, ms, ns, release, env);
    ApplyWrites(s, hs, ns, release, env);
    assert hs[..|hs|] == hs;
    WritesLabelled(hs, ns, release, env);
    var w := Writes(hs, ns, release, env);
    GarbageAfter(s, w, release, env);
    CollectedStore(s, w, release, env);
    var g := Garbage(p.store, release, p.applied, env);
    MinusSize(p.store, g);
  }

  lemma ApplyParts(s: Store, ms: seq<Json>, ns: string, release: string, env: Env)
    requires Apply(s, ms, ns, release, env).result.Ok?
    ensures var o := Apply(s, ms, ns, release, env);
            var p := ApplyAll(s, HardenEach(ms), ns, release, env);
            var g := Garbage(p.store, release, p.applied, env);
            p.err.None? && o == Outcome(p.store - g, Ok(Counts(p.created, p.updated, |g|))) && g <= p.store.Keys
  {
    hide HardenEach, ApplyAll, Labelled, KeyText;
  }

  lemma CollectedStore(s: Store, w: Store, release: string, env: Env)
    requires forall k <- w :: SlashFree(k.gvr) && Labelled(w[k], release)
    ensures var after := (s + w) - (LabelledKeys(s, release) - w.Keys - Unreachable(s, release, env));
            && LabelledKeys(after, release) == w.Keys + Unreachable(s, release, env)
            && (forall k <- w :: k in after && after[k] == w[k])
            && (forall k :: k !in w && k !in LabelledKeys(s, release) ==>
                  (k in after <==> k in s) && (k in s ==> after[k] == s[k]))
  {
    hide Labelled, SlashFree;
  }

  lemma HardenLength(ms: seq<Json>)
    ensures |HardenEach(ms)| == |ms|
  {
  }

  lemma MinusSize(s: Store, g: set<Key>)
    requires g <= s.Keys
    ensures |s - g| + |g| == |s|
  {
    assert (s - g).Keys == s.Keys - g;
    assert |(s - g).Keys| == |s - g| && |s.Keys| == |s|;
    assert s.Keys == (s.Keys - g) + g;
  }

  /** A failed apply deletes nothing, and changes only resources the manifests name. */
  lemma FailedApplyKeeps(s: Store, ms: seq<Json>, ns: string, release: string, env: Env) returns (n: nat)
    requires Apply(s, ms, ns, release, env).result.Err?
    ensures n <= |ms| == |HardenEach(ms)|
    ensures Apply(s, ms, ns, release, env).store == s + Writes(HardenEach(ms)[..n], ns, release, env)
    ensures s.Keys <= Apply(s, ms, ns, release, env).store.Keys
  {
    hide *;
    HardenLength(ms);
    var hs := HardenEach(ms);
    var o := Apply(s, ms, ns, release, env).store;
    FailedParts(s, ms, ns, release, env);
    n := FailedAfter(s, hs, o, ns, release, env);
    KeysGrow(s, Writes(hs[..n], ns, release, env));
  }

  lemma FailedAfter(s: Store, hs: seq<Json>, o: Store, ns: string, release: string, env: Env) returns (n: nat)
    requires o == s || o == ApplyAll(s, hs, ns, release, env).store
    ensures n <= |hs| && o == s + Writes(hs[..n], ns, release, env)
  {
    hide ApplyAll, Writes;
    if o == s {
      n := 0;
      NothingWritten(s, hs, ns, release, env);
    } else {
      n := ApplyStore(s, hs, ns, release, env);
      assert WritesFirst(s, ApplyAll(s, hs, ns, release, env), hs, n, ns, release, env);
    }
  }

  lemma NothingWritten(s: Store, hs: seq<Json>, ns: string, release: string, env: Env)
    ensures s + Writes(hs[..0], ns, release, env) == s
  {
  }

  lemma KeysGrow(s: Store, w: Store)
    ensures s.Keys <= (s + w).Keys
  {
  }

  lemma FailedParts(s: Store, ms: seq<Json>, ns: string, release: string, env: Env)
    requires Apply(s, ms, ns, release, env).result.Err?
    ensures var o := Apply(s, ms, ns, release, env).store;
            o == s || o == ApplyAll(s, HardenEach(ms), ns, release, env).store
  {
    hide HardenEach, ApplyAll, Garbage, SkipsPsa;
  }

  lemma NoWrites(hs: seq<Json>, ns: string, release: string, env: Env)
    ensures Writes(hs[..0], ns, release, env) == map[]
  {
  }

  predicate Reachable(s: Store, release: string) {
    forall k <- LabelledKeys(s, release) :: k.gvr in KNOWN_GVRS
  }

  predicate NoFailures(env: Env) {
    env.listFails == {} && env.deleteFails == {}
  }

  lemma {:induction false} WritesSame(ms: seq<Json>, ns: string, release: string, e1: Env, e2: Env)
    requires e1.discovery == e2.discovery
    ensures Writes(ms, ns, release, e1) == Writes(ms, ns, release, e2)
  {
    if ms != [] {
      WritesSame(ms[..|ms| - 1], ns, release, e1, e2);
    }
  }

  /** Applying the same manifests again, after an apply whose collection met no failure,
      creates nothing, deletes nothing and changes no content. */
  lemma ApplyTwice(s: Store, ms: seq<Json>, ns: string, release: string, e1: Env, e2: Env)
    requires Apply(s, ms, ns, release, e1).result.Ok? && NoFailures(e1) && Reachable(s, release)
    requires Apply(Apply(s, ms, ns, release, e1).store, ms, ns, release, e2).result.Ok?
    requires e1.discovery == e2.discovery && forall d <- e1.discovery :: SlashFree(e1.discovery[d])
    ensures var once := Apply(s, ms, ns, release, e1).store;
            var again := Apply(once, ms, ns, release, e2);
            again.store == once && again.result.value == Counts(0, |ms|, 0)
  {
    hide *;
    var once := Apply(s, ms, ns, release, e1).store;
    var again := Apply(once, ms, ns, release, e2);
    var w := Writes(HardenEach(ms), ns, release, e1);
    ApplyReconciles(s, ms, ns, release, e1);
    ApplyReconciles(once, ms, ns, release, e2);
    WritesSame(HardenEach(ms), ns, release, e1, e2);
    AllReached(s, release, e1);
    assert w.Keys <= once.Keys;
    assert LabelledKeys(once, release) == w.Keys;
    assert again.store == once by {
      assert forall k <- w :: k in once && once[k] == w[k] && k in again.store && again.store[k] == w[k];
      assert forall k :: k !in w ==> (k in again.store <==> k in once);
      assert again.store.Keys == once.Keys;
    }
    AllUpdated(once, ms, ns, release, e2);
  }

  lemma AllReached(s: Store, release: string, env: Env)
    requires NoFailures(env) && Reachable(s, release)
    ensures Unreachable(s, release, env) == {}
  {
    hide Labelled;
  }

  lemma {:induction false} KeysCovered(s: Store, ms: seq<Json>, ns: string, release: string, env: Env)
    requires Writes(ms, ns, release, env).Keys <= s.Keys
    ensures ApplyAll(s, ms, ns, release, env).created == 0
  {
    hide Prepared, Target, KeyText;
    if ms != [] {
      var i := |ms| - 1;
      KeysCovered(s, ms[..i], ns, release, env);
      ApplyWrites(s, ms[..i], ns, release, env);
    }
  }

  lemma AllUpdated(s: Store, ms: seq<Json>, ns: string, release: string, env: Env)
    requires Apply(s, ms, ns, release, env).result.Ok?
    requires Writes(HardenEach(ms), ns, release, env).Keys <= s.Keys
    ensures Apply(s, ms, ns, release, env).result.value.created == 0
  {
    hide HardenEach, Writes, ApplyAll, Garbage;
    KeysCovered(s, HardenEach(ms), ns, release, env);
  }

  /** Removal leaves exactly the labelled resources it could not reach, and touches nothing else;
      after an apply of known types without failures, none is left. */
  lemma RemoveClears(s: Store, release: string, env: Env)
    requires env.managed
    ensures var o := Remove(s, release, env);
            && LabelledKeys(o.store, release) == Unreachable(s, release, env)
            && (forall k :: k !in LabelledKeys(s, release) ==>
                (k in o.store <==> k in s) && (k in s ==> o.store[k] == s[k]))
            && o.result.Ok? && |o.store| + o.result.value.deleted == |s|
            && (NoFailures(env) && Reachable(s, release) ==> LabelledKeys(o.store, release) == {})
  {
    hide Labelled, KeyText;
    var g := Garbage(s, release, {}, env);
    assert g <= s.Keys;
    MinusSize(s, g);
    assert forall k <- g :: k in LabelledKeys(s, release) && k !in Unreachable(s, release, env);
    assert forall k <- LabelledKeys(s, release) :: k in g || k in Unreachable(s, release, env);
  }

  lemma {:induction false} WritesKnown(ms: seq<Json>, ns: string, release: string, env: Env)
    requires forall d <- env.discovery :: env.discovery[d] in KNOWN_GVRS
    ensures forall k <- Writes(ms, ns, release, env) :: k.gvr in KNOWN_GVRS
  {
    hide Prepared;
    if ms != [] {
      WritesKnown(ms[..|ms| - 1], ns, release, env);
    }
  }

  lemma ReachableKeys(s: Store, release: string)
    requires forall k <- LabelledKeys(s, release) :: k.gvr in KNOWN_GVRS
    ensures Reachable(s, release)
  {
  }

  /** Apply, then remove: nothing of the release is left and the rest of the cluster is as it was. */
  lemma ApplyThenRemove(s: Store, ms: seq<Json>, ns: string, release: string, e1: Env, e2: Env)
    requires Apply(s, ms, ns, release, e1).result.Ok? && NoFailures(e1) && Reachable(s, release)
    requires e2.managed && NoFailures(e2)
    requires forall d <- e1.discovery :: e1.discovery[d] in KNOWN_GVRS
    ensures var once := Apply(s, ms, ns, release, e1).store;
            var gone := Remove(once, release, e2).store;
            && LabelledKeys(gone, release) == {}
            && gone == s - LabelledKeys(s, release) - Writes(HardenEach(ms), ns, release, e1).Keys
  {
    hide *;
    var once := Apply(s, ms, ns, release, e1).store;
    KnownSlashFree();
    ApplyReconciles(s, ms, ns, release, e1);
    WritesKnown(HardenEach(ms), ns, release, e1);
    AllReached(s, release, e1);
    ReachableKeys(once, release);
    RemoveClears(once, release, e2);
    var gone := Remove(once, release, e2).store;
    var w := Writes(HardenEach(ms), ns, release, e1);
    var want := s - LabelledKeys(s, release) - w.Keys;
    assert LabelledKeys(once, release) == w.Keys;
    LabelledAreKeys(gone, release);
    RemoveGone(once, release, e2);
    AllReached(once, release, e2);
    forall k ensures (k in gone <==> k in want) && (k in gone ==> gone[k] == want[k]) {
      if k !in w.Keys && k in LabelledKeys(s, release) {
        LabelledGone(s, ms, ns, release, e1, k);
      }
    }
    SameStore(gone, want);
  }

  lemma SameStore(a: Store, b: Store)
    requires forall k :: (k in a <==> k in b) && (k in a ==> a[k] == b[k])
    ensures a == b
  {
  }

  lemma LabelledAreKeys(s: Store, release: string)
    ensures LabelledKeys(s, release) <= s.Keys
  {
  }

  lemma RemoveGone(s: Store, release: string, env: Env)
    requires env.managed
    ensures Remove(s, release, env).store == s - (LabelledKeys(s, release) - Unreachable(s, release, env))
  {
    hide Labelled, KeyText;
    assert Garbage(s, release, {}, env) == LabelledKeys(s, release) - Unreachable(s, release, env);
  }

  lemma LabelledGone(s: Store, ms: seq<Json>, ns: string, release: string, env: Env, k: Key)
    requires Apply(s, ms, ns, release, env).result.Ok? && NoFailures(env) && Reachable(s, release)
    requires forall d <- env.discovery :: SlashFree(env.discovery[d])
    requires k in LabelledKeys(s, release) && k !in Writes(HardenEach(ms), ns, release, env)
    ensures k !in Apply(s, ms, ns, release, env).store
  {
    hide *;
    var hs := HardenEach(ms);
    ApplyParts(s, ms, ns, release, env);
    ApplyWrites(s, hs, ns, release, env);
    assert hs[..|hs|] == hs;
    WritesLabelled(hs, ns, release, env);
    GarbageAfter(s, Writes(hs, ns, release, env), release, env);
    AllReached(s, release, env);
  }

  /** An apply outside a privileged namespace is refused, before anything is written, exactly
      when a manifest has a fault that no default can mend; the report lists those faults. */
  lemma ApplyRefusesFaults(s: Store, ms: seq<Json>, ns: string, release: string, env: Env)
    requires env.managed && env.level.Some? && !SkipsPsa(env.level.value)
    ensures PV.AllFaults(ms) != [] ==>
              Apply(s, ms, ns, release, env) == Outcome(s, Err(PsaViolations(PV.AllFaults(ms))))
    ensures Apply(s, ms, ns, release, env).result.Err? && Apply(s, ms, ns, release, env).result.error.PsaViolations? ==>
              PV.AllFaults(ms) != []
  {
    hide PV.AllFaults, PV.AllViolations, Harden, Garbage, Prepared, ApplyAll;
    PV.HardenedAllViolations(ms, HardenEach(ms));
    LoopNeverPsa(s, HardenEach(ms), ns, release, env);
  }

  lemma {:induction false} LoopNeverPsa(s: Store, ms: seq<Json>, ns: string, release: string, env: Env)
    ensures var p := ApplyAll(s, ms, ns, release, env); p.err.Some? ==> !p.err.value.PsaViolations?
  {
    hide ApplyOne;
    if ms != [] {
      var i := |ms| - 1;
      LoopNeverPsa(s, ms[..i], ns, release, env);
      var p := ApplyAll(s, ms[..i], ns, release, env);
      if p.err.None? { OneNeverPsa(p, ms[i], i, ns, release, env); }
    }
  }

  lemma OneNeverPsa(p: Progress, m: Json, i: nat, ns: string, release: string, env: Env)
    requires p.err.None?
    ensures var q := ApplyOne(p, m, i, ns, release, env); q.err.Some? ==> !q.err.value.PsaViolations?
  {
    hide Prepared, KeyText, ALLOWED_KINDS, ApiVersionOf, KindOf, NameOf;
  }
}
