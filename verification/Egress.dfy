/** `patchNetworkPolicyExoEgress` (`pkg/exoskeleton/enrich.go`): egress rules for the backing
    services of a workflow, from credentials kept in an unordered map. */
module Egress {
  import opened Wrappers
  import opened Text
  import opened Sorting
  import opened Json

  /** The host and port a credential names; those of NATS and RustFS as parsed from their URL. */
  datatype Cred = Postgres(host: string, port: string) | FromUrl(host: string, port: string) | Unknown

  type Creds = map<string, Cred>

  datatype Endpoint = Endpoint(name: string, host: string, port: string)

  /** What the resolver answers for a host: an error, or addresses. */
  type Resolver = map<string, seq<string>>

  const EGRESS: Path := ["spec", "egress"]

  function NameKey(e: Endpoint): string { e.name }

  // ----- ports and hosts -----

  predicate Digits(s: string) {
    s != [] && forall i :: 0 <= i < |s| ==> '0' <= s[i] <= '9'
  }

  function DecimalValue(s: string): nat
    requires forall i :: 0 <= i < |s| ==> '0' <= s[i] <= '9'
  {
    if s == [] then 0 else 10 * DecimalValue(s[..|s| - 1]) + (s[|s| - 1] as int - '0' as int)
  }

  /** `strconv.ParseInt(s, 10, 64)`: an optional sign, digits, and a 64-bit range. */
  function ParseInt(s: string): Option<int> {
    var signed := s != [] && (s[0] == '+' || s[0] == '-');
    var digits := if signed then s[1..] else s;
    if !Digits(digits) then None
    else
      var v: int := if signed && s[0] == '-' then 0 - DecimalValue(digits) as int else DecimalValue(digits);
      if -0x8000_0000_0000_0000 <= v <= 0x7FFF_FFFF_FFFF_FFFF then Some(v) else None
  }

  /** `<svc>.<ns>.svc`, alone or followed by `cluster` and at most one more label. */
  predicate IsInClusterHost(host: string) {
    var parts := Split(host, '.');
    |parts| >= 3 && parts[2] == "svc" && (|parts| == 3 || (|parts| <= 5 && parts[3] == "cluster"))
  }

  // ----- rules -----

  function NamespacePeer(ns: string): Json {
    Obj(map["namespaceSelector" := Obj(map["matchLabels" := Obj(map["kubernetes.io/metadata.name" := Str(ns)])])])
  }

  /** A block holding a single address, of either family. */
  function SingleBlock(ip: string): string {
    ip + (if ':' in ip then "/128" else "/32")
  }

  function AddressPeer(ip: string): Json {
    Obj(map["ipBlock" := Obj(map["cidr" := Str(SingleBlock(ip))])])
  }

  function RuleOf(peers: seq<Json>, port: int): Json {
    Obj(map["to" := Arr(peers), "ports" := Arr([Obj(map["protocol" := Str("TCP"), "port" := Num(port)])])])
  }

  function AddressPeers(ips: seq<string>): seq<Json> {
    seq(|ips|, i requires 0 <= i < |ips| => AddressPeer(ips[i]))
  }

  /** The rule for an endpoint; none for a port that is no number, nor for an external host
      that does not resolve. */
  function RuleFor(e: Endpoint, dns: Resolver): Option<Json> {
    var port := ParseInt(e.port);
    if port.None? then None
    else if IsInClusterHost(e.host) then Some(RuleOf([NamespacePeer(Split(e.host, '.')[1])], port.value))
    else if e.host !in dns || dns[e.host] == [] then None
    else Some(RuleOf(AddressPeers(dns[e.host]), port.value))
  }

  function Rules(es: seq<Endpoint>, dns: Resolver): seq<Json> {
    if es == [] then []
    else
      var r := RuleFor(es[|es| - 1], dns);
      Rules(es[..|es| - 1], dns) + if r.Some? then [r.value] else []
  }

  /** The endpoints of the credentials, in the order the map happens to be enumerated. */
  function Collect(creds: Creds, order: seq<string>): seq<Endpoint> {
    if order == [] then []
    else
      var n := order[|order| - 1];
      Collect(creds, order[..|order| - 1]) +
      if HasEndpoint(creds, n) then [EndpointOf(creds, n)] else []
  }

  predicate HasEndpoint(creds: Creds, n: string) {
    n in creds && !creds[n].Unknown? && creds[n].host != "" && creds[n].port != ""
  }

  function EndpointOf(creds: Creds, n: string): Endpoint
    requires HasEndpoint(creds, n)
  {
    Endpoint(n, creds[n].host, creds[n].port)
  }

  // ----- the patch -----

  predicate IsTarget(m: Json, workflow: string) {
    KindOf(m) == "NetworkPolicy" && NameOf(m) == workflow + "-netpol"
  }

  /** The index of the first policy named after the workflow, or the number of manifests. */
  function TargetIndex(ms: seq<Json>, workflow: string): (i: nat)
    ensures i <= |ms|
    ensures i < |ms| ==> IsTarget(ms[i], workflow)
    ensures forall j :: 0 <= j < i ==> !IsTarget(ms[j], workflow)
  {
    if ms == [] || IsTarget(ms[0], workflow) then 0 else 1 + TargetIndex(ms[1..], workflow)
  }

  function Existing(m: Json): seq<Json> {
    match Lookup(m, EGRESS)
    case Some(Arr(xs)) => xs
    case _ => []
  }

  function Patched(ms: seq<Json>, es: seq<Endpoint>, workflow: string, dns: Resolver): seq<Json> {
    var i := TargetIndex(ms, workflow);
    if i == |ms| then ms
    else ms[i := SetNested(ms[i], Arr(Existing(ms[i]) + Rules(es, dns)), EGRESS)]
  }

  /** An enumeration of the credential names, each once. */
  ghost predicate Enumerates(creds: Creds, order: seq<string>) {
    && (forall n :: n in order <==> n in creds)
    && (forall i, j :: 0 <= i < j < |order| ==> order[i] != order[j])
  }

  /** The patch, with the credentials visited in any order. The result is the same for every
      enumeration. */
  method PatchNetworkPolicyExoEgress(ms: seq<Json>, creds: Creds, workflow: string, dns: Resolver)
      returns (r: seq<Json>)
    ensures creds == map[] ==> r == ms
    ensures creds != map[] ==>
              forall order :: Enumerates(creds, order) ==>
                  r == Patched(ms, SortBy(NameKey, Collect(creds, order)), workflow, dns)
  {
    hide SetNested, RuleFor, IsTarget, Collect, SortBy, Existing;
    r := ms;
    if creds == map[] {
      return;
    }
    var i := 0;
    while i < |ms| && !IsTarget(ms[i], workflow)
      invariant 0 <= i <= |ms|
      invariant forall j :: 0 <= j < i ==> !IsTarget(ms[j], workflow)
    {
      i := i + 1;
    }
    if i == |ms| {
      return;
    }
    var egress := Existing(ms[i]);
    var endpoints, order := Visit(creds);
    endpoints := SortBy(NameKey, endpoints);
    for k := 0 to |endpoints|
      invariant egress == Existing(ms[i]) + Rules(endpoints[..k], dns)
    {
      assert endpoints[..k + 1][..k] == endpoints[..k];
      var rule := RuleFor(endpoints[k], dns);
      if rule.Some? {
        egress := egress + [rule.value];
      }
    }
    assert endpoints[..|endpoints|] == endpoints;
    r := ms[i := SetNested(ms[i], Arr(egress), EGRESS)];
    forall other | Enumerates(creds, other)
      ensures r == Patched(ms, SortBy(NameKey, Collect(creds, other)), workflow, dns)
    {
      OrderDoesNotMatter(creds, order, other);
    }
  }

  /** Go's iteration over a map: every key once, in no particular order. */
  method Visit(creds: Creds) returns (endpoints: seq<Endpoint>, ghost order: seq<string>)
    ensures Enumerates(creds, order) && endpoints == Collect(creds, order)
  {
    hide Collect, HasEndpoint;
    CollectNone(creds);
    var todo := creds.Keys;
    endpoints, order := [], [];
    while todo != {}
      invariant todo <= creds.Keys
      invariant forall n :: n in order <==> n in creds && n !in todo
      invariant forall i, j :: 0 <= i < j < |order| ==> order[i] != order[j]
      invariant endpoints == Collect(creds, order)
      decreases todo
    {
      var n :| n in todo;
      todo := todo - {n};
      ghost var before := order;
      order := before + [n];
      CollectSnoc(creds, before, n);
      if HasEndpoint(creds, n) {
        endpoints := endpoints + [EndpointOf(creds, n)];
      }
    }
  }

  lemma CollectNone(creds: Creds)
    ensures Collect(creds, []) == []
  {
  }

  lemma CollectSnoc(creds: Creds, order: seq<string>, n: string)
    ensures Collect(creds, order + [n]) ==
            Collect(creds, order) + if HasEndpoint(creds, n) then [EndpointOf(creds, n)] else []
  {
    assert (order + [n])[..|order|] == order;
  }

  // ----- independence of the enumeration -----

  lemma {:induction false} CollectMembers(creds: Creds, order: seq<string>)
    requires forall i, j :: 0 <= i < j < |order| ==> order[i] != order[j]
    ensures forall e :: e in Collect(creds, order) <==>
                        HasEndpoint(creds, e.name) && e.name in order && e == EndpointOf(creds, e.name)
    ensures DistinctKeys(NameKey, Collect(creds, order))
  {
    if order != [] {
      var before := order[..|order| - 1];
      var n := order[|order| - 1];
      CollectMembers(creds, before);
      assert order == before + [n] && n !in before;
      var c, d := Collect(creds, before), Collect(creds, order);
      forall i, j | 0 <= i < j < |d| ensures NameKey(d[i]) != NameKey(d[j]) {
        assert d[i] in c;
        if j < |c| { assert d[j] in c; }
      }
    }
  }

  lemma OrderDoesNotMatter(creds: Creds, a: seq<string>, b: seq<string>)
    requires Enumerates(creds, a) && Enumerates(creds, b)
    ensures SortBy(NameKey, Collect(creds, a)) == SortBy(NameKey, Collect(creds, b))
  {
    hide SortBy, HasEndpoint;
    CollectMembers(creds, a);
    CollectMembers(creds, b);
    SortOrderIndependent(NameKey, Collect(creds, a), Collect(creds, b));
  }

  // ----- what the patch adds -----

  /** The rules, one by one: rule `k` is that of the `k`-th endpoint, by name, that has one. */
  function Served(es: seq<Endpoint>, dns: Resolver): seq<Endpoint> {
    if es == [] then []
    else
      var e := es[|es| - 1];
      Served(es[..|es| - 1], dns) + if RuleFor(e, dns).Some? then [e] else []
  }

  lemma {:induction false} RulesServe(es: seq<Endpoint>, dns: Resolver)
    requires StrictlySorted(NameKey, es)
    ensures var s := Served(es, dns);
            && |Rules(es, dns)| == |s|
            && (forall k :: 0 <= k < |s| ==> RuleFor(s[k], dns) == Some(Rules(es, dns)[k]))
            && (forall e :: e in s <==> e in es && RuleFor(e, dns).Some?)
            && StrictlySorted(NameKey, s)
  {
    hide RuleFor;
    if es != [] {
      var before := es[..|es| - 1];
      var e := es[|es| - 1];
      RulesServe(before, dns);
      assert es == before + [e];
      var s, t := Served(before, dns), Served(es, dns);
      forall i, j | 0 <= i < j < |t| ensures Less(NameKey(t[i]), NameKey(t[j])) {
        if j == |s| {
          assert t[i] in s && t[i] in before;
          var x :| 0 <= x < |before| && before[x] == t[i];
          assert Less(NameKey(es[x]), NameKey(es[|es| - 1]));
        }
      }
    }
  }

  // ----- what the rules admit -----

  /** Where a connection goes: to a pod, by its namespace, or to an address outside. */
  datatype Destination = Pod(namespace: string) | Address(ip: string)

  function PortsOf(rule: Json): seq<Json> {
    match Lookup(rule, ["ports"])
    case Some(Arr(xs)) => xs
    case _ => []
  }

  function PeersOf(rule: Json): seq<Json> {
    match Lookup(rule, ["to"])
    case Some(Arr(xs)) => xs
    case _ => []
  }

  /** The meaning of a peer in a NetworkPolicy: a namespace by its name label, or a block of
      addresses, here only blocks of one. */
  predicate PeerSelects(peer: Json, d: Destination) {
    match d
    case Pod(ns) =>
      Lookup(peer, ["namespaceSelector", "matchLabels"]) == Some(Obj(map["kubernetes.io/metadata.name" := Str(ns)]))
    case Address(ip) =>
      Lookup(peer, ["ipBlock", "cidr"]) == Some(Str(if ':' in ip then ip + "/128" else ip + "/32"))
  }

  predicate PortIs(p: Json, port: int) {
    Lookup(p, ["protocol"]) == Some(Str("TCP")) && Lookup(p, ["port"]) == Some(Num(port))
  }

  predicate SomeSelects(peers: seq<Json>, d: Destination) {
    exists peer <- peers :: PeerSelects(peer, d)
  }

  predicate SomeIs(ports: seq<Json>, port: int) {
    exists p <- ports :: PortIs(p, port)
  }

  /** A rule admits what one of its peers selects, on one of its ports. */
  predicate RuleAdmits(rule: Json, d: Destination, port: int) {
    SomeSelects(PeersOf(rule), d) && SomeIs(PortsOf(rule), port)
  }

  /** The name of a service inside the cluster, in one of its spellings. */
  ghost predicate ServiceName(host: string, ns: string) {
    && '.' !in ns
    && exists svc: string, rest: string :: '.' !in svc && '.' !in rest &&
         (|| host == svc + "." + ns + ".svc"
          || host == svc + "." + ns + ".svc.cluster"
          || host == svc + "." + ns + ".svc.cluster." + rest)
  }

  lemma DotParts(a: string, b: string, c: string)
    requires '.' !in a && '.' !in b && '.' !in c
    ensures Split(a + "." + b + "." + c, '.') == [a, b, c]
  {
    assert [a, b, c][1..] == [b, c] && [b, c][1..] == [c];
    assert Join([b, c], ['.']) == b + "." + c;
    assert Join([a, b, c], ['.']) == a + "." + (b + "." + c);
    assert a + "." + b + "." + c == a + "." + (b + "." + c);
    SplitJoin([a, b, c], '.');
  }

  lemma ServiceParts(svc: string, ns: string, rest: string)
    requires '.' !in svc && '.' !in ns && '.' !in rest
    ensures Split(svc + "." + ns + ".svc", '.') == [svc, ns, "svc"]
    ensures Split(svc + "." + ns + ".svc.cluster", '.') == [svc, ns, "svc", "cluster"]
    ensures Split(svc + "." + ns + ".svc.cluster." + rest, '.') == [svc, ns, "svc", "cluster", rest]
  {
    hide Split;
    var head := svc + "." + ns + "." + "svc";
    assert svc + "." + ns + ".svc" == head by { assert ".svc" == "." + "svc"; }
    DotParts(svc, ns, "svc");
    assert svc + "." + ns + ".svc.cluster" ==
        head + ['.'] + "cluster" by { assert ".svc.cluster" == "." + "svc" + "." + "cluster"; }
    SplitAppend(head, "cluster", '.');
    SplitOne("cluster", '.');
    SplitOne(rest, '.');
    assert svc + "." + ns + ".svc.cluster." + rest == head + ['.'] + "cluster" + ['.'] + rest by {
      assert ".svc.cluster." == "." + "svc" + "." + "cluster" + ".";
    }
    SplitAppend(head + ['.'] + "cluster", rest, '.');
  }

  /** The in-cluster test recognizes exactly those names, and the rule takes their namespace. */
  lemma InClusterHosts(host: string, ns: string)
    ensures IsInClusterHost(host) && Split(host, '.')[1] == ns <==> ServiceName(host, ns)
  {
    hide Split;
    var parts := Split(host, '.');
    if IsInClusterHost(host) && parts[1] == ns {
      SplitPartsFree(host, '.');
      JoinSplit(host, '.');
      var svc := parts[0];
      assert '.' !in svc && '.' !in ns by { assert parts[0] in parts && parts[1] in parts; }
      var rest := if |parts| == 5 then parts[4] else "";
      assert '.' !in rest by { if |parts| == 5 { assert parts[4] in parts; } }
      assert |parts| == 3 ==> parts == [svc, ns, "svc"];
      assert |parts| == 4 ==> parts == [svc, ns, "svc", "cluster"];
      assert |parts| == 5 ==> parts == [svc, ns, "svc", "cluster", rest];
      SameParts(host, svc, ns, rest);
    }
    if ServiceName(host, ns) {
      var svc: string, rest: string :| '.' !in svc && '.' !in rest &&
         (|| host == svc + "." + ns + ".svc"
          || host == svc + "." + ns + ".svc.cluster"
          || host == svc + "." + ns + ".svc.cluster." + rest);
      ServiceParts(svc, ns, rest);
    }
  }

  lemma SameParts(host: string, svc: string, ns: string, rest: string)
    requires Split(host, '.') in
      {[svc, ns, "svc"], [svc, ns, "svc", "cluster"], [svc, ns, "svc", "cluster", rest]}
    requires '.' !in svc && '.' !in ns && '.' !in rest
    ensures || host == svc + "." + ns + ".svc" || host == svc + "." + ns + ".svc.cluster"
            || host == svc + "." + ns + ".svc.cluster." + rest
  {
    hide Split;
    ServiceParts(svc, ns, rest);
    JoinSplit(host, '.');
    JoinSplit(svc + "." + ns + ".svc", '.');
    JoinSplit(svc + "." + ns + ".svc.cluster", '.');
    JoinSplit(svc + "." + ns + ".svc.cluster." + rest, '.');
  }

  /** The decimal notation of a number. */
  function Decimal(n: nat): string {
    (if n < 10 then [] else Decimal(n / 10)) + [('0' as int + n % 10) as char]
  }

  lemma {:induction false} DecimalReads(n: nat)
    ensures Digits(Decimal(n)) && DecimalValue(Decimal(n)) == n
  {
    var s := Decimal(n);
    if n >= 10 {
      DecimalReads(n / 10);
      assert s[..|s| - 1] == Decimal(n / 10);
    } else {
      assert s[..|s| - 1] == [];
    }
  }

  /** Ports read as the numbers they denote, with a sign or without, and not beyond 64 bits. */
  lemma PortsRead(n: nat)
    ensures ParseInt(Decimal(n)) == ParseInt("+" + Decimal(n)) ==
            if n < 0x8000_0000_0000_0000 then Some(n) else None
    ensures ParseInt("-" + Decimal(n)) == if n <= 0x8000_0000_0000_0000 then Some(0 - n) else None
  {
    hide Digits, DecimalValue, Decimal;
    DecimalReads(n);
    var d := Decimal(n);
    FirstDigit(d);
    assert ("+" + d)[1..] == d && ("-" + d)[1..] == d;
  }

  lemma FirstDigit(d: string)
    requires Digits(d)
    ensures d != [] && d[0] != '+' && d[0] != '-'
    ensures forall i :: 0 <= i < |d| ==> '0' <= d[i] <= '9'
  {
  }

  /** What an endpoint needs: its port, in the namespace of an in-cluster host or at the
      addresses an external one resolves to. */
  ghost predicate Needs(e: Endpoint, dns: Resolver, d: Destination, port: int) {
    && ParseInt(e.port) == Some(port)
    && match d
       case Pod(ns) => ServiceName(e.host, ns)
       case Address(ip) => (forall ns: string :: !ServiceName(e.host, ns)) && e.host in dns && ip in dns[e.host]
  }

  lemma FieldAt(fields: map<string, Json>, k: string, rest: Path)
    requires k in fields
    ensures Lookup(Obj(fields), [k] + rest) == Lookup(fields[k], rest)
  {
    assert ([k] + rest)[1..] == rest;
  }

  lemma NamespaceSelects(ns: string, d: Destination)
    ensures PeerSelects(NamespacePeer(ns), d) <==> d == Pod(ns)
  {
    var labels := Obj(map["kubernetes.io/metadata.name" := Str(ns)]);
    var at: Path, cidr: Path := ["namespaceSelector", "matchLabels"], ["ipBlock", "cidr"];
    assert at[1..] == ["matchLabels"] && at[1..][1..] == [];
    assert Lookup(NamespacePeer(ns), at) == Lookup(Obj(map["matchLabels" := labels]), ["matchLabels"]);
    FieldAt(map["matchLabels" := labels], "matchLabels", []);
    assert ["matchLabels"] + [] == ["matchLabels"];
    assert |"namespaceSelector"| == 17 && |"ipBlock"| == 7;
    assert Lookup(NamespacePeer(ns), cidr) == None;
    if d.Pod? && Obj(map["kubernetes.io/metadata.name" := Str(d.namespace)]) == labels {
      assert labels.fields["kubernetes.io/metadata.name"] == Str(d.namespace);
    }
  }

  lemma AddressSelects(ip: string, d: Destination)
    ensures PeerSelects(AddressPeer(ip), d) <==> d == Address(ip)
  {
    var block := map["cidr" := Str(SingleBlock(ip))];
    var at: Path, cidr: Path := ["namespaceSelector", "matchLabels"], ["ipBlock", "cidr"];
    assert cidr[1..] == ["cidr"];
    assert Lookup(AddressPeer(ip), cidr) == Lookup(Obj(block), ["cidr"]);
    FieldAt(block, "cidr", []);
    assert ["cidr"] + [] == ["cidr"];
    assert |"namespaceSelector"| == 17 && |"ipBlock"| == 7;
    assert Lookup(AddressPeer(ip), at) == None;
    if d.Address? { SingleBlocksDiffer(ip, d.ip); }
  }

  lemma SingleBlocksDiffer(a: string, b: string)
    ensures SingleBlock(a) == SingleBlock(b) <==> a == b
  {
    if SingleBlock(a) == SingleBlock(b) {
      assert ':' in a <==> ':' in SingleBlock(a);
      assert ':' in b <==> ':' in SingleBlock(b);
      var n := |SingleBlock(a)| - if ':' in a then 4 else 3;
      assert SingleBlock(a)[..n] == a && SingleBlock(b)[..n] == b;
    }
  }

  lemma RuleParts(peers: seq<Json>, port: int)
    ensures PeersOf(RuleOf(peers, port)) == peers
    ensures forall other: int :: SomeIs(PortsOf(RuleOf(peers, port)), other) <==> other == port
  {
    var p := Obj(map["protocol" := Str("TCP"), "port" := Num(port)]);
    var fields := map["to" := Arr(peers), "ports" := Arr([p])];
    assert |"to"| == 2 && |"ports"| == 5 && |"protocol"| == 8 && |"port"| == 4;
    FieldAt(fields, "to", []);
    FieldAt(fields, "ports", []);
    FieldAt(p.fields, "protocol", []);
    FieldAt(p.fields, "port", []);
    assert ["to"] + [] == ["to"] && ["ports"] + [] == ["ports"] && ["protocol"] + [] == ["protocol"] &&
        ["port"] + [] == ["port"];
    assert PortsOf(RuleOf(peers, port)) == [p] && p in [p];
  }

  lemma RuleMeansNeed(e: Endpoint, dns: Resolver, d: Destination, port: int)
    ensures RuleFor(e, dns).Some? && RuleAdmits(RuleFor(e, dns).value, d, port) <==> Needs(e, dns, d, port)
  {
    hide RuleOf, PeersOf, PortsOf, SomeIs, PeerSelects, NamespacePeer, AddressPeers, ParseInt, Split, ServiceName;
    forall ns: string ensures IsInClusterHost(e.host) && Split(e.host, '.')[1] == ns <==> ServiceName(e.host, ns) {
      InClusterHosts(e.host, ns);
    }
    if IsInClusterHost(e.host) { assert ServiceName(e.host, Split(e.host, '.')[1]); }
    if RuleFor(e, dns).Some? {
      var own := ParseInt(e.port).value;
      if IsInClusterHost(e.host) {
        var ns := Split(e.host, '.')[1];
        RuleParts([NamespacePeer(ns)], own);
        NamespaceSelects(ns, d);
        assert NamespacePeer(ns) in [NamespacePeer(ns)];
      } else {
        var ips := dns[e.host];
        RuleParts(AddressPeers(ips), own);
        AddressesSelect(ips, d);
      }
    }
  }

  lemma AddressesSelect(ips: seq<string>, d: Destination)
    ensures SomeSelects(AddressPeers(ips), d) <==> d.Address? && d.ip in ips
  {
    hide PeerSelects, AddressPeer;
    var peers := AddressPeers(ips);
    forall i | 0 <= i < |ips| ensures PeerSelects(peers[i], d) <==> d == Address(ips[i]) {
      AddressSelects(ips[i], d);
    }
    if d.Address? && d.ip in ips {
      var i :| 0 <= i < |ips| && ips[i] == d.ip;
      assert peers[i] in peers;
    }
  }

  /** The added rules admit a destination exactly when one of the endpoints needs it: nothing
      wider than a namespace or single addresses, nothing on another port, and nothing left out. */
  lemma {:induction false} RulesAdmit(es: seq<Endpoint>, dns: Resolver, d: Destination, port: int)
    ensures (exists r <- Rules(es, dns) :: RuleAdmits(r, d, port)) <==> exists e <- es :: Needs(e, dns, d, port)
  {
    hide RuleAdmits, Needs, RuleFor;
    if es != [] {
      var before, e := es[..|es| - 1], es[|es| - 1];
      RulesAdmit(before, dns, d, port);
      RuleMeansNeed(e, dns, d, port);
      assert es == before + [e];
      assert e in es;
      var rs := Rules(before, dns);
      assert forall r :: r in Rules(es, dns) <==> r in rs || RuleFor(e, dns) == Some(r);
    }
  }

  /** For every enumeration: only the first policy named after the workflow changes, and nowhere
      but in its egress list, which keeps its rules in front and gains one rule for each
      endpoint that has one, by name. */
  lemma PatchAppends(ms: seq<Json>, creds: Creds, order: seq<string>, workflow: string, dns: Resolver, q: Path)
    requires Enumerates(creds, order)
    ensures var es := SortBy(NameKey, Collect(creds, order));
            var r := Patched(ms, es, workflow, dns);
            var t := TargetIndex(ms, workflow);
            && |r| == |ms| && (forall i :: 0 <= i < |ms| && i != t ==> r[i] == ms[i])
            && StrictlySorted(NameKey, es)
            && (forall e :: e in es <==>
                  e.name in creds && HasEndpoint(creds, e.name) && e == EndpointOf(creds, e.name))
            && (t < |ms| ==>
                  && (Independent(EGRESS, q) ==> Lookup(r[t], q) == Lookup(ms[t], q))
                  && (Settable(ms[t], EGRESS) ==> Existing(r[t]) == Existing(ms[t]) + Rules(es, dns))
                  && (!Settable(ms[t], EGRESS) ==> r[t] == ms[t])
                  && (Settable(ms[t], ["spec", "egress"]) ==>
                        Lookup(r[t], ["spec", "egress"]) ==
                        Some(Arr((match Lookup(ms[t], ["spec", "egress"]) case Some(Arr(xs)) => xs case _ => []) +
                                 Rules(es, dns)))))
  {
    hide SortBy, Lookup, SetNested, Settable, Independent, HasEndpoint, Rules, IsTarget;
    CollectMembers(creds, order);
    StrictFromDistinct(NameKey, Collect(creds, order));
    SortByMembers(NameKey, Collect(creds, order));
    var es := SortBy(NameKey, Collect(creds, order));
    var t := TargetIndex(ms, workflow);
    if t < |ms| {
      var value := Arr(Existing(ms[t]) + Rules(es, dns));
      SetLookup(ms[t], value, EGRESS);
      if Independent(EGRESS, q) {
        SetIndependent(ms[t], value, EGRESS, q);
      }
    }
  }

  // ----- telemetry -----

  const OTEL_PORTS: set<Json> := {Num(4317), Num(4318)}

  function OTelRule(): Json {
    Obj(map[
      "to" := Arr([Obj(map[
        "namespaceSelector" := Obj(map[
          "matchLabels" := Obj(map["kubernetes.io/metadata.name" := Str("tentacular-observability")])]),
        "podSelector" := Obj(map["matchLabels" := Obj(map["app.kubernetes.io/component" := Str("collector")])])])]),
      "ports" := Arr([
        Obj(map["protocol" := Str("TCP"), "port" := Num(4317)]),
        Obj(map["protocol" := Str("TCP"), "port" := Num(4318)])])])
  }

  predicate IsOTelPort(p: Json) {
    p.Obj? && "port" in p.fields && p.fields["port"] in OTEL_PORTS
  }

  predicate ReachesOTel(rule: Json) {
    exists p <- PortsOf(rule) :: IsOTelPort(p)
  }

  predicate OTelPresent(m: Json) {
    exists rule <- Existing(m) :: ReachesOTel(rule)
  }

  function OTelPatched(ms: seq<Json>, workflow: string): seq<Json> {
    var i := TargetIndex(ms, workflow);
    if i == |ms| || OTelPresent(ms[i]) then ms
    else ms[i := SetNested(ms[i], Arr(Existing(ms[i]) + [OTelRule()]), EGRESS)]
  }

  /** `patchNetworkPolicyOTelEgress`. */
  method PatchNetworkPolicyOTelEgress(ms: seq<Json>, workflow: string) returns (r: seq<Json>)
    ensures r == OTelPatched(ms, workflow)
  {
    hide SetNested, IsTarget, Lookup, IsOTelPort, OTelRule;
    var i := 0;
    while i < |ms| && !IsTarget(ms[i], workflow)
      invariant 0 <= i <= |ms|
      invariant forall j :: 0 <= j < i ==> !IsTarget(ms[j], workflow)
    {
      i := i + 1;
    }
    assert i == TargetIndex(ms, workflow);
    if i == |ms| {
      return ms;
    }
    var egress := Existing(ms[i]);
    for k := 0 to |egress|
      invariant forall j :: 0 <= j < k ==> !ReachesOTel(egress[j])
    {
      var ports := PortsOf(egress[k]);
      for l := 0 to |ports|
        invariant forall j :: 0 <= j < l ==> !IsOTelPort(ports[j])
      {
        if IsOTelPort(ports[l]) {
          assert ports[l] in ports && egress[k] in egress;
          return ms;
        }
      }
    }
    r := ms[i := SetNested(ms[i], Arr(egress + [OTelRule()]), EGRESS)];
  }

  lemma OTelRuleReaches()
    ensures ReachesOTel(OTelRule())
  {
    var r := OTelRule();
    assert Lookup(r, ["ports"]) == Lookup(r.fields["ports"], []);
    var p := Obj(map["protocol" := Str("TCP"), "port" := Num(4317)]);
    assert PortsOf(r)[0] == p;
    assert p in PortsOf(r) && IsOTelPort(p);
  }

  /** The collector becomes reachable once: the patch is idempotent on every manifest list,
      keeps the existing rules in front, and can be written at all exactly on a settable policy. */
  lemma OTelEgressOnce(ms: seq<Json>, workflow: string)
    ensures var r := OTelPatched(ms, workflow);
            var t := TargetIndex(ms, workflow);
            && OTelPatched(r, workflow) == r
            && |r| == |ms| && (forall i :: 0 <= i < |ms| && i != t ==> r[i] == ms[i])
            && (t < |ms| ==>
                  && Existing(ms[t]) <= Existing(r[t])
                  && (OTelPresent(r[t]) <==> OTelPresent(ms[t]) || Settable(ms[t], EGRESS)))
  {
    hide Lookup, SetNested, Settable, IsTarget, ReachesOTel, OTelRule;
    var t := TargetIndex(ms, workflow);
    if t < |ms| && !OTelPresent(ms[t]) {
      var xs := Existing(ms[t]) + [OTelRule()];
      var r := OTelPatched(ms, workflow);
      SetLookup(ms[t], Arr(xs), EGRESS);
      OTelRuleReaches();
      assert xs[|xs| - 1] in xs;
      TargetKept(ms[t], Arr(xs), workflow);
      SameTarget(ms, r, t, workflow);
      if !Settable(ms[t], EGRESS) { assert r == ms; }
    }
  }

  predicate NamesCollectorPort(rule: Json) {
    exists p <- PortsOf(rule) ::
      p.Obj? && "port" in p.fields && (p.fields["port"] == Num(4317) || p.fields["port"] == Num(4318))
  }

  /** A policy is left as it is exactly if one of its rules names a collector port already. */
  lemma OTelSkips(ms: seq<Json>, workflow: string)
    requires TargetIndex(ms, workflow) < |ms| && Settable(ms[TargetIndex(ms, workflow)], EGRESS)
    ensures OTelPatched(ms, workflow) == ms <==>
            exists rule <- Existing(ms[TargetIndex(ms, workflow)]) :: NamesCollectorPort(rule)
  {
    hide Lookup, SetNested, Settable, IsTarget, OTelRule;
    var t := TargetIndex(ms, workflow);
    forall rule ensures ReachesOTel(rule) <==> NamesCollectorPort(rule) {
      PortsSpelled(rule);
    }
    if !OTelPresent(ms[t]) {
      var xs := Existing(ms[t]) + [OTelRule()];
      SetLookup(ms[t], Arr(xs), EGRESS);
      assert Existing(SetNested(ms[t], Arr(xs), EGRESS)) == xs;
      assert OTelPatched(ms, workflow)[t] == SetNested(ms[t], Arr(xs), EGRESS);
    }
  }

  lemma PortsSpelled(rule: Json)
    ensures ReachesOTel(rule) <==> NamesCollectorPort(rule)
  {
    hide PortsOf;
    assert OTEL_PORTS == {Num(4317), Num(4318)};
    forall p ensures IsOTelPort(p) <==>
                     p.Obj? && "port" in p.fields && (p.fields["port"] == Num(4317) || p.fields["port"] == Num(4318)) {
    }
  }

  /** Both patches touch no manifest but the first NetworkPolicy named after the workflow. */
  lemma OnlyItsPolicy(ms: seq<Json>, es: seq<Endpoint>, workflow: string, dns: Resolver, i: nat)
    requires i < |ms|
    ensures |Patched(ms, es, workflow, dns)| == |OTelPatched(ms, workflow)| == |ms|
    ensures Patched(ms, es, workflow, dns)[i] != ms[i] || OTelPatched(ms, workflow)[i] != ms[i] ==>
              && Named(ms[i], workflow)
              && forall j :: 0 <= j < i ==> !Named(ms[j], workflow)
  {
    hide Lookup, SetNested, Rules;
    KindIsFilled();
    forall j | 0 <= j < |ms| ensures Named(ms[j], workflow) <==> IsTarget(ms[j], workflow) {
      NamedIsTarget(ms[j], workflow);
    }
  }

  predicate Named(m: Json, workflow: string) {
    && Lookup(m, ["kind"]) == Some(Str("NetworkPolicy"))
    && Lookup(m, ["metadata", "name"]) == Some(Str(workflow + "-netpol"))
  }

  lemma KindIsFilled()
    ensures "NetworkPolicy" != ""
  {
  }

  lemma NamedIsTarget(m: Json, workflow: string)
    ensures Named(m, workflow) <==> IsTarget(m, workflow)
  {
    hide Lookup;
    assert |workflow + "-netpol"| == |workflow| + 7;
    assert |"NetworkPolicy"| == 13;
  }

  /** The telemetry rule admits the pods of the observability namespace on the two collector ports. */
  lemma OTelRuleAdmits(d: Destination, port: int)
    ensures RuleAdmits(OTelRule(), d, port) <==> d == Pod("tentacular-observability") && (port == 4317 || port == 4318)
  {
    var labels := Obj(map["kubernetes.io/metadata.name" := Str("tentacular-observability")]);
    var selector := map["matchLabels" := labels];
    var collector := Obj(map["matchLabels" := Obj(map["app.kubernetes.io/component" := Str("collector")])]);
    var peer := Obj(map["namespaceSelector" := Obj(selector), "podSelector" := collector]);
    var p1 := Obj(map["protocol" := Str("TCP"), "port" := Num(4317)]);
    var p2 := Obj(map["protocol" := Str("TCP"), "port" := Num(4318)]);
    var fields := map["to" := Arr([peer]), "ports" := Arr([p1, p2])];
    assert OTelRule() == Obj(fields);
    FieldNames();
    FieldAt(fields, "to", []);
    FieldAt(fields, "ports", []);
    assert ["to"] + [] == ["to"] && ["ports"] + [] == ["ports"];
    assert PeersOf(OTelRule()) == [peer] && PortsOf(OTelRule()) == [p1, p2];
    PortReads(4317, port);
    PortReads(4318, port);
    CollectorPeer(peer, selector, collector, d);
    assert peer in [peer] && p1 in [p1, p2] && p2 in [p1, p2];
  }

  lemma FieldNames()
    ensures "to" != "ports" && "protocol" != "port" && "namespaceSelector" != "podSelector"
    ensures "ipBlock" != "namespaceSelector" && "ipBlock" != "podSelector"
  {
    assert |"to"| == 2 && |"ports"| == 5 && |"protocol"| == 8 && |"port"| == 4;
    assert |"namespaceSelector"| == 17 && |"podSelector"| == 11 && |"ipBlock"| == 7;
  }

  lemma PortReads(n: int, port: int)
    ensures PortIs(Obj(map["protocol" := Str("TCP"), "port" := Num(n)]), port) <==> port == n
  {
    var fields := map["protocol" := Str("TCP"), "port" := Num(n)];
    FieldNames();
    FieldAt(fields, "protocol", []);
    FieldAt(fields, "port", []);
    assert ["protocol"] + [] == ["protocol"] && ["port"] + [] == ["port"];
  }

  lemma CollectorPeer(peer: Json, selector: map<string, Json>, collector: Json, d: Destination)
    requires selector ==
             map["matchLabels" := Obj(map["kubernetes.io/metadata.name" := Str("tentacular-observability")])]
    requires peer == Obj(map["namespaceSelector" := Obj(selector), "podSelector" := collector])
    ensures PeerSelects(peer, d) <==> d == Pod("tentacular-observability")
  {
    FieldNames();
    var at: Path, cidr: Path := ["namespaceSelector", "matchLabels"], ["ipBlock", "cidr"];
    assert at[1..] == ["matchLabels"] && at[1..][1..] == [];
    assert Lookup(peer, at) == Lookup(Obj(selector), ["matchLabels"]);
    FieldAt(selector, "matchLabels", []);
    assert ["matchLabels"] + [] == ["matchLabels"];
    assert Lookup(peer, cidr) == None;
    if d.Pod? && Obj(map["kubernetes.io/metadata.name" := Str(d.namespace)]) == selector["matchLabels"] {
      assert selector["matchLabels"].fields["kubernetes.io/metadata.name"] == Str(d.namespace);
    }
  }

  lemma TargetKept(m: Json, value: Json, workflow: string)
    ensures IsTarget(SetNested(m, value, EGRESS), workflow) == IsTarget(m, workflow)
  {
    hide Lookup, SetNested, Settable;
    SetIndependent(m, value, EGRESS, ["kind"]);
    SetIndependent(m, value, EGRESS, ["metadata", "name"]);
  }

  lemma SameTarget(ms: seq<Json>, r: seq<Json>, t: nat, workflow: string)
    requires t < |ms| == |r| && TargetIndex(ms, workflow) == t && IsTarget(r[t], workflow)
    requires forall j :: 0 <= j < t ==> r[j] == ms[j]
    ensures TargetIndex(r, workflow) == t
  {
    hide IsTarget;
  }
}
