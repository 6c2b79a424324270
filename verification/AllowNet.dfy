/** `patchDeploymentAllowNet` (`pkg/exoskeleton/enrich.go`): the hosts of the backing services
    join the `--allow-net=` flag of a workflow, beside the egress rules of `Egress`. */
module AllowNet {
  import opened Wrappers
  import opened Text
  import opened Sorting
  import opened Json
  import opened AllowFlags
  import opened Egress

  // ----- the hosts -----

  function HostText(c: Cred): string
    requires !c.Unknown?
  {
    c.host + ":" + c.port
  }

  /** A Postgres host counts even if it is empty; one from a URL needs both its parts. */
  function HostOf(creds: Creds, n: string): Option<string> {
    if n !in creds || creds[n].Unknown? || (creds[n].FromUrl? && (creds[n].host == "" || creds[n].port == "")) then None
    else Some(HostText(creds[n]))
  }

  function HostsOf(creds: Creds, order: seq<string>): seq<string> {
    if order == [] then []
    else
      var h := HostOf(creds, order[|order| - 1]);
      HostsOf(creds, order[..|order| - 1]) + if h.Some? then [h.value] else []
  }

  lemma HostsNone(creds: Creds)
    ensures HostsOf(creds, []) == []
  {
  }

  lemma HostsSnoc(creds: Creds, order: seq<string>, n: string)
    ensures HostsOf(creds, order + [n]) ==
            HostsOf(creds, order) + if HostOf(creds, n).Some? then [HostOf(creds, n).value] else []
  {
    assert (order + [n])[..|order|] == order;
  }

  function Itself(s: string): string { s }

  /** `collectExoHosts`. */
  method CollectExoHosts(creds: Creds) returns (hosts: seq<string>)
    ensures forall order :: Enumerates(creds, order) ==> hosts == SortBy(Itself, HostsOf(creds, order))
  {
    hide HostOf, SortBy, HostsOf;
    HostsNone(creds);
    var todo := creds.Keys;
    hosts := [];
    ghost var order := [];
    while todo != {}
      invariant todo <= creds.Keys
      invariant forall n :: n in order <==> n in creds && n !in todo
      invariant forall i, j :: 0 <= i < j < |order| ==> order[i] != order[j]
      invariant hosts == HostsOf(creds, order)
      decreases todo
    {
      var n :| n in todo;
      todo := todo - {n};
      ghost var before := order;
      order := before + [n];
      HostsSnoc(creds, before, n);
      var h := HostOf(creds, n);
      if h.Some? {
        hosts := hosts + [h.value];
      }
    }
    ghost var found := hosts;
    hosts := SortBy(Itself, hosts);
    forall other | Enumerates(creds, other) ensures hosts == SortBy(Itself, HostsOf(creds, other)) {
      HostsOrderDoesNotMatter(creds, order, other);
    }
  }

  function NamesOf(creds: Creds, order: seq<string>, h: string): set<string> {
    set n <- order | HostOf(creds, n) == Some(h)
  }

  lemma NamesSnoc(creds: Creds, before: seq<string>, n: string, order: seq<string>, h: string)
    requires order == before + [n] && n !in before
    ensures |NamesOf(creds, order, h)| == |NamesOf(creds, before, h)| + if HostOf(creds, n) == Some(h) then 1 else 0
  {
    hide HostOf;
    if HostOf(creds, n) == Some(h) {
      assert NamesOf(creds, order, h) == NamesOf(creds, before, h) + {n};
    } else {
      assert NamesOf(creds, order, h) == NamesOf(creds, before, h);
    }
  }

  /** A host is listed once for each credential that names it. */
  lemma {:induction false} HostCount(creds: Creds, order: seq<string>, h: string)
    requires forall i, j :: 0 <= i < j < |order| ==> order[i] != order[j]
    ensures multiset(HostsOf(creds, order))[h] == |NamesOf(creds, order, h)|
  {
    hide HostOf, NamesOf;
    if order == [] {
      NoNames(creds, h);
    } else {
      var before, n := order[..|order| - 1], order[|order| - 1];
      HostCount(creds, before, h);
      assert order == before + [n];
      NamesSnoc(creds, before, n, order, h);
    }
  }

  lemma NoNames(creds: Creds, h: string)
    ensures NamesOf(creds, [], h) == {}
  {
  }

  lemma HostsOrderDoesNotMatter(creds: Creds, a: seq<string>, b: seq<string>)
    requires Enumerates(creds, a) && Enumerates(creds, b)
    ensures SortBy(Itself, HostsOf(creds, a)) == SortBy(Itself, HostsOf(creds, b))
  {
    hide HostOf, SortBy, HostsOf;
    var x, y := HostsOf(creds, a), HostsOf(creds, b);
    forall h: string ensures multiset(x)[h] == multiset(y)[h] {
      HostCount(creds, a, h);
      HostCount(creds, b, h);
      assert NamesOf(creds, a, h) == NamesOf(creds, b, h);
    }
    assert multiset(x) == multiset(y);
    SortBySorts(Itself, x);
    SortBySorts(Itself, y);
    SortedUnique(SortBy(Itself, x), SortBy(Itself, y));
  }

  /** Two sorted lists of the same strings are equal, repetitions included. */
  lemma {:induction false} SortedUnique(x: seq<string>, y: seq<string>)
    requires Sorted(Itself, x) && Sorted(Itself, y) && multiset(x) == multiset(y)
    ensures x == y
  {
    hide Sorted;
    assert |multiset(x)| == |x| && |multiset(y)| == |y|;
    if x != [] {
      assert x[0] in multiset(y) && y[0] in multiset(x) by {
        assert x[0] in multiset(x) && y[0] in multiset(y);
      }
      var i :| 0 <= i < |y| && y[i] == x[0];
      var j :| 0 <= j < |x| && x[j] == y[0];
      SameFirst(x, y, i, j);
      SortedTail(x);
      SortedTail(y);
      SortedUnique(x[1..], y[1..]);
    }
  }

  lemma SortedTail(x: seq<string>)
    requires x != [] && Sorted(Itself, x)
    ensures Sorted(Itself, x[1..])
    ensures multiset(x[1..]) == multiset(x) - multiset{x[0]}
    ensures x == [x[0]] + x[1..]
  {
    assert x == [x[0]] + x[1..];
  }

  lemma SameFirst(x: seq<string>, y: seq<string>, i: nat, j: nat)
    requires Sorted(Itself, x) && Sorted(Itself, y)
    requires i < |y| && j < |x| && y[i] == x[0] && x[j] == y[0]
    ensures x[0] == y[0]
  {
    LessTotal(x[0], y[0]);
    assert i > 0 ==> !Less(Itself(y[i]), Itself(y[0]));
    assert j > 0 ==> !Less(Itself(x[j]), Itself(x[0]));
  }

  lemma {:induction false} HostsMembers(creds: Creds, order: seq<string>)
    ensures forall h :: h in HostsOf(creds, order) <==> exists n :: n in order && HostOf(creds, n) == Some(h)
  {
    hide HostOf;
    if order != [] {
      var before, n := order[..|order| - 1], order[|order| - 1];
      HostsMembers(creds, before);
      assert order == before + [n];
    }
  }

  // ----- the patch -----

  predicate Takes(m: Json, p: Patch) {
    FirstContainer(m).Some? && AppliesFirst(FirstContainer(m).value, p)
  }

  /** The first Deployment whose first container takes the patch, or the number of manifests. */
  function Taker(ms: seq<Json>, p: Patch): (i: nat)
    ensures i <= |ms|
    ensures i < |ms| ==> Takes(ms[i], p)
    ensures forall j :: 0 <= j < i ==> !Takes(ms[j], p)
  {
    if ms == [] || Takes(ms[0], p) then 0 else 1 + Taker(ms[1..], p)
  }

  function Allowed(ms: seq<Json>, hosts: seq<string>): seq<Json> {
    var p := Patch(Net, hosts);
    var i := Taker(ms, p);
    if hosts == [] || i == |ms| then ms
    else ms[i := WithContainer(ms[i], PatchFirst(FirstContainer(ms[i]).value, p))]
  }

  /** Every enumeration of the credentials gives the same manifests. */
  method PatchDeploymentAllowNet(ms: seq<Json>, creds: Creds) returns (r: seq<Json>)
    ensures forall order :: Enumerates(creds, order) ==> r == Allowed(ms, SortBy(Itself, HostsOf(creds, order)))
  {
    hide SortBy, Applies, PatchField, FirstContainer, WithContainer, HostsOf;
    var hosts := CollectExoHosts(creds);
    if hosts == [] {
      return ms;
    }
    ghost var p := Patch(Net, hosts);
    for i := 0 to |ms|
      invariant forall j :: 0 <= j < i ==> !Takes(ms[j], p)
    {
      var first := FirstContainer(ms[i]);
      if first.None? {
        continue;
      }
      var c, patched := PatchAllowNetInSlice(first.value, ARGS, hosts);
      if patched {
        assert Taker(ms, p) == i;
        return ms[i := WithContainer(ms[i], c)];
      }
      c, patched := PatchAllowNetInSlice(first.value, COMMAND, hosts);
      if patched {
        assert Taker(ms, p) == i;
        return ms[i := WithContainer(ms[i], c)];
      }
    }
    return ms;
  }

  ghost predicate CommaFree(creds: Creds) {
    forall n <- creds :: creds[n].Unknown? || (',' !in creds[n].host && ',' !in creds[n].port)
  }

  lemma HostsPlain(creds: Creds, order: seq<string>)
    requires Enumerates(creds, order) && CommaFree(creds) && HostsOf(creds, order) != []
    ensures PlainItems(Patch(Net, SortBy(Itself, HostsOf(creds, order))))
  {
    hide SortBy, HostsOf;
    var hosts := HostsOf(creds, order);
    HostsMembers(creds, order);
    SortBySorts(Itself, hosts);
    SortByMembers(Itself, hosts);
    forall h | h in SortBy(Itself, hosts) ensures ',' !in h && h != "" && h != "none" {
      var n :| n in order && HostOf(creds, n) == Some(h);
      assert h[|creds[n].host|] == ':';
      assert ':' !in "none";
    }
  }

  /** The workflow gains exactly the hosts of its credentials: in the first Deployment that has
      an `--allow-net=` flag, after the hosts its first container was granted before; no other
      field, no variable and no other manifest changes. */
  lemma AllowNetGrants(ms: seq<Json>, creds: Creds, order: seq<string>, field: string, k: Kind, q: Path)
    requires Enumerates(creds, order) && CommaFree(creds) && HostsOf(creds, order) != []
    ensures var hosts := SortBy(Itself, HostsOf(creds, order));
            var p := Patch(Net, hosts);
            var t := Taker(ms, p);
            var r := Allowed(ms, hosts);
            && |r| == |ms| && (forall i :: 0 <= i < |ms| && i != t ==> r[i] == ms[i])
            && (t < |ms| ==>
                  var c := FirstContainer(ms[t]).value;
                  && FirstContainer(r[t]).Some?
                  && (Independent(CONTAINERS, q) ==> Lookup(r[t], q) == Lookup(ms[t], q))
                  && FieldGrants(FirstContainer(r[t]).value, field, k) ==
                     if TargetField(c, p) == Some(field) && k == Net then FieldGrants(c, field, k) + hosts
                     else FieldGrants(c, field, k))
  {
    hide SortBy, HostsOf, Applies, PatchFirst, FirstContainer, WithContainer, FieldGrants, FieldHasFlag, PlainItems,
        Independent;
    HostsPlain(creds, order);
    var hosts := SortBy(Itself, HostsOf(creds, order));
    SortBySorts(Itself, HostsOf(creds, order));
    var p := Patch(Net, hosts);
    var t := Taker(ms, p);
    if t < |ms| {
      ContainerKinds(ms[t]);
      var c := FirstContainer(ms[t]).value;
      WithContainerBack(ms[t], PatchFirst(c, p));
      WithContainerAside(ms[t], PatchFirst(c, p), q);
      PatchFirstGrants(c, p, field, k);
    }
  }

  lemma {:induction false} NoHosts(creds: Creds, order: seq<string>)
    requires forall n <- creds :: creds[n].Unknown?
    ensures HostsOf(creds, order) == []
  {
    if order != [] { NoHosts(creds, order[..|order| - 1]); }
  }

  /** Without a host there is nothing to patch. */
  lemma NoHostsNoChange(ms: seq<Json>, creds: Creds, order: seq<string>)
    requires forall n <- creds :: creds[n].Unknown?
    ensures Allowed(ms, SortBy(Itself, HostsOf(creds, order))) == ms
  {
    hide HostsOf;
    NoHosts(creds, order);
  }

  lemma WithContainerAside(m: Json, c: Json, q: Path)
    requires FirstContainer(m).Some?
    ensures Independent(CONTAINERS, q) ==> Lookup(WithContainer(m, c), q) == Lookup(m, q)
  {
    hide Lookup, SetNested, Independent;
    if Independent(CONTAINERS, q) {
      SetIndependent(m, Arr(Lookup(m, CONTAINERS).value.items[0 := c]), CONTAINERS, q);
    }
  }

  /** The flag and the network policy agree: every endpoint that gets a chance at an egress rule
      is among the granted hosts, and every granted host with both its parts is such an endpoint. */
  lemma FlagMatchesPolicy(creds: Creds, order: seq<string>)
    requires Enumerates(creds, order)
    ensures forall e <- Collect(creds, order) :: e.host + ":" + e.port in HostsOf(creds, order)
    ensures forall n <- creds :: creds[n].Postgres? ==> creds[n].host + ":" + creds[n].port in HostsOf(creds, order)
    ensures forall h <- HostsOf(creds, order) ::
              (exists e :: e in Collect(creds, order) && h == e.host + ":" + e.port) ||
              (exists n :: n in creds && creds[n].Postgres? && (creds[n].host == "" || creds[n].port == "") &&
                  h == HostText(creds[n]))
  {
    hide Collect, HostsOf;
    CollectMembers(creds, order);
    HostsMembers(creds, order);
    forall e | e in Collect(creds, order) ensures e.host + ":" + e.port in HostsOf(creds, order) {
      assert HostOf(creds, e.name) == Some(e.host + ":" + e.port);
    }
    forall n | n in creds && creds[n].Postgres?
      ensures creds[n].host + ":" + creds[n].port in HostsOf(creds, order)
    {
      assert n in order && HostOf(creds, n) == Some(creds[n].host + ":" + creds[n].port);
    }
    forall h | h in HostsOf(creds, order)
      ensures (exists e :: e in Collect(creds, order) && h == e.host + ":" + e.port) ||
              (exists n :: n in creds && creds[n].Postgres? && (creds[n].host == "" || creds[n].port == "") &&
                  h == HostText(creds[n]))
    {
      var n :| n in order && HostOf(creds, n) == Some(h);
      if HasEndpoint(creds, n) {
        assert EndpointOf(creds, n) in Collect(creds, order);
      }
    }
  }
}
