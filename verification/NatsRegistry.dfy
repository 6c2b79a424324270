/** SPIFFE-mode registration (`pkg/exoskeleton/registrar_nats.go`): a map from principals to
    permissions kept as text in a ConfigMap, updated by racing callers under its version. */
module NatsRegistry {
  import opened Wrappers
  import opened Text
  import opened Sorting
  import opened NatsAuthz
  import opened NatsRoundTrip
  import opened Optimistic

  /** The part of a compiled identity the registrar uses. */
  datatype Identity = Identity(principal: string, natsPrefix: string)

  datatype Op = Register(id: Identity) | Unregister(id: Identity)

  function BuildEntry(id: Identity): Entry {
    Entry(id.principal, [id.natsPrefix], [id.natsPrefix])
  }

  // ----- edits of an entry list -----

  /** Replaces the first entry of the same user, or appends. */
  function Upsert(es: seq<Entry>, e: Entry): seq<Entry> {
    if es == [] then [e]
    else if es[0].user == e.user then [e] + es[1..]
    else [es[0]] + Upsert(es[1..], e)
  }

  function Removed(es: seq<Entry>, user: string): seq<Entry> {
    if es == [] then []
    else (if es[0].user == user then [] else [es[0]]) + Removed(es[1..], user)
  }

  method UpsertEntry(entries: seq<Entry>, entry: Entry) returns (r: seq<Entry>)
    ensures r == Upsert(entries, entry)
  {
    r := entries;
    var found := false;
    var i := 0;
    while i < |entries|
      invariant 0 <= i <= |entries|
      invariant r == entries && !found
      invariant Upsert(entries, entry) == entries[..i] + Upsert(entries[i..], entry)
    {
      assert entries[i..][0] == entries[i] && entries[i..][1..] == entries[i + 1..];
      if entries[i].user == entry.user {
        r := r[i := entry];
        found := true;
        assert r == entries[..i] + [entry] + entries[i + 1..];
        break;
      }
      assert entries[..i + 1] == entries[..i] + [entries[i]];
      i := i + 1;
    }
    if !found {
      assert entries[..i] == entries;
      r := r + [entry];
    }
  }

  lemma {:induction false} RemovedSnoc(es: seq<Entry>, e: Entry, user: string)
    ensures Removed(es + [e], user) == Removed(es, user) + if e.user == user then [] else [e]
  {
    if es != [] {
      assert (es + [e])[1..] == es[1..] + [e];
      RemovedSnoc(es[1..], e, user);
    }
  }

  method RemoveEntry(entries: seq<Entry>, user: string) returns (r: seq<Entry>)
    ensures r == Removed(entries, user)
  {
    r := [];
    for i := 0 to |entries|
      invariant r == Removed(entries[..i], user)
    {
      assert entries[..i + 1] == entries[..i] + [entries[i]];
      RemovedSnoc(entries[..i], entries[i], user);
      if entries[i].user != user {
        r := r + [entries[i]];
      }
    }
    assert entries[..|entries|] == entries;
  }

  // ----- one call against the ConfigMap -----

  /** What a call decides after reading the ConfigMap text (absent if there is no ConfigMap). */
  function Decide(op: Op, conf: Option<string>): Outcome<string> {
    match op
    case Register(id) =>
      Put(Render(if conf.None? then [BuildEntry(id)] else Upsert(Parse(conf.value), BuildEntry(id))))
    case Unregister(id) =>
      if conf.None? then Keep
      else
        var es := Parse(conf.value);
        var left := Removed(es, id.principal);
        if |left| == |es| then Keep else Put(Render(left))
  }

  datatype ApiError = AlreadyExists | Conflict | Gone

  /** The ConfigMap at the API server. */
  class ConfigMapApi {
    var conf: Option<string>
    var version: nat

    constructor ()
      ensures conf == None && version == 0
    {
      conf := None;
      version := 0;
    }

    method Interfere(writes: seq<Option<string>>)
      modifies this
      ensures conf == if writes == [] then old(conf) else writes[|writes| - 1]
      ensures version == old(version) + |writes|
    {
      for i := 0 to |writes|
        invariant conf == if i == 0 then old(conf) else writes[i - 1]
        invariant version == old(version) + i
      {
        conf := writes[i];
        version := version + 1;
      }
    }

    /** Create when nothing was read, Update under the version read otherwise. */
    method Write(text: string, seen: Option<nat>) returns (err: Option<ApiError>)
      modifies this
      ensures err.None? <==> seen == (if old(conf).None? then None else Some(old(version)))
      ensures err.None? ==> conf == Some(text) && version == old(version) + 1
      ensures err.Some? ==> conf == old(conf) && version == old(version)
    {
      if seen.None? {
        if conf.Some? {
          return Some(AlreadyExists);
        }
      } else if conf.None? {
        return Some(Gone);
      } else if seen.value != version {
        return Some(Conflict);
      }
      conf := Some(text);
      version := version + 1;
      return None;
    }
  }

  /** `upsertAuthzEntry`, with what other callers write between its read and its write. */
  method UpsertAuthzEntry(api: ConfigMapApi, id: Identity, writes: seq<Option<string>>) returns (ok: bool)
    modifies api
    ensures ok ==> Decide(Register(id), old(api.conf)).value == (if api.conf.Some? then api.conf.value else "")
    ensures ok ==> api.conf.Some?
    ensures ok <==> writes == [] || (old(api.conf).None? && writes[|writes| - 1].None?)
    ensures !ok ==> api.conf == writes[|writes| - 1]
  {
    var conf := api.conf;
    var seen := if conf.None? then None else Some(api.version);
    api.Interfere(writes);
    var text;
    if conf.None? {
      text := RenderAuthzConfig([BuildEntry(id)]);
    } else {
      var entries := ParseAuthzConfig(conf.value);
      entries := UpsertEntry(entries, BuildEntry(id));
      text := RenderAuthzConfig(entries);
    }
    var err := api.Write(text, seen);
    ok := err.None?;
  }

  /** `unregisterSPIFFE`: writes only when the principal was listed. */
  method UnregisterSpiffe(api: ConfigMapApi, id: Identity, writes: seq<Option<string>>) returns (ok: bool)
    modifies api
    ensures var d := Decide(Unregister(id), old(api.conf));
            && (ok <==> d.Keep? || writes == [])
            && (d.Put? && ok ==> api.conf == Some(d.value))
            && (d.Keep? || !ok ==> api.conf == if writes == [] then old(api.conf) else writes[|writes| - 1])
  {
    var conf := api.conf;
    var seen := if conf.None? then None else Some(api.version);
    api.Interfere(writes);
    if conf.None? {
      return true;
    }
    var entries := ParseAuthzConfig(conf.value);
    var newEntries := RemoveEntry(entries, id.principal);
    if |newEntries| == |entries| {
      return true;
    }
    var text := RenderAuthzConfig(newEntries);
    var err := api.Write(text, seen);
    ok := err.None?;
  }

  // ----- the registry as a map -----

  datatype Permission = Permission(publish: seq<string>, subscribe: seq<string>)

  type Registry = map<string, Permission>

  function PermissionOf(e: Entry): Permission {
    Permission(e.publishAllow, e.subscribeAllow)
  }

  /** The permissions an entry list grants, by user. */
  function Denote(es: seq<Entry>): Registry {
    if es == [] then map[] else Denote(es[1..])[es[0].user := PermissionOf(es[0])]
  }

  lemma {:induction false} DenoteLookup(es: seq<Entry>)
    requires DistinctKeys(UserOf, es)
    ensures forall e <- es :: e.user in Denote(es) && Denote(es)[e.user] == PermissionOf(e)
    ensures forall u <- Denote(es) :: exists e :: e in es && e.user == u
  {
    if es != [] {
      DenoteLookup(es[1..]);
      assert es == [es[0]] + es[1..];
      forall e | e in es ensures e.user in Denote(es) && Denote(es)[e.user] == PermissionOf(e) {
        if e in es[1..] {
          var i :| 0 <= i < |es[1..]| && es[1..][i] == e;
          assert es[i + 1] == e && UserOf(es[0]) != UserOf(es[i + 1]);
        }
      }
      forall u | u in Denote(es) ensures exists e :: e in es && e.user == u {
        if u in Denote(es[1..]) {
          var e :| e in es[1..] && e.user == u;
          assert e in es;
        } else {
          assert es[0] in es;
        }
      }
    }
  }

  lemma DenoteSorted(es: seq<Entry>)
    requires DistinctKeys(UserOf, es)
    ensures DistinctKeys(UserOf, SortBy(UserOf, es))
    ensures Denote(SortBy(UserOf, es)) == Denote(es)
  {
    hide SortBy, Denote;
    var r := SortBy(UserOf, es);
    SortBySorts(UserOf, es);
    DistinctPermutation(UserOf, es, r);
    SortByMembers(UserOf, es);
    DenoteLookup(es);
    DenoteLookup(r);
    forall u ensures u in Denote(r) <==> u in Denote(es) {
    }
    forall u | u in Denote(es) ensures Denote(r)[u] == Denote(es)[u] {
      var e :| e in es && e.user == u;
      assert e in r;
    }
  }

  lemma DistinctHead(es: seq<Entry>)
    requires es != [] && DistinctKeys(UserOf, es)
    ensures DistinctKeys(UserOf, es[1..])
    ensures forall x <- es[1..] :: x.user != es[0].user
  {
    forall x | x in es[1..] ensures x.user != es[0].user {
      var i :| 0 <= i < |es[1..]| && es[1..][i] == x;
      assert UserOf(es[0]) != UserOf(es[i + 1]);
    }
  }

  lemma DistinctCons(e: Entry, rest: seq<Entry>)
    requires DistinctKeys(UserOf, rest) && forall x <- rest :: x.user != e.user
    ensures DistinctKeys(UserOf, [e] + rest)
    ensures Denote([e] + rest) == Denote(rest)[e.user := PermissionOf(e)]
  {
    hide PermissionOf;
    assert ([e] + rest)[1..] == rest;
  }

  lemma {:induction false} UpsertDenotes(es: seq<Entry>, e: Entry)
    requires DistinctKeys(UserOf, es)
    ensures DistinctKeys(UserOf, Upsert(es, e))
    ensures Denote(Upsert(es, e)) == Denote(es)[e.user := PermissionOf(e)]
    ensures forall x <- Upsert(es, e) :: x in es || x == e
  {
    hide DistinctKeys, PermissionOf;
    if es == [] {
      DistinctNil();
      DistinctCons(e, []);
      assert [e] + [] == [e];
    } else {
      DistinctHead(es);
      if es[0].user == e.user {
        DistinctCons(e, es[1..]);
      } else {
        UpsertDenotes(es[1..], e);
        DistinctCons(es[0], Upsert(es[1..], e));
      }
    }
  }

  lemma DistinctNil()
    ensures DistinctKeys(UserOf, [])
  {
  }

  lemma {:induction false} RemovedDenotes(es: seq<Entry>, user: string)
    requires DistinctKeys(UserOf, es)
    ensures DistinctKeys(UserOf, Removed(es, user))
    ensures Denote(Removed(es, user)) == Denote(es) - {user}
    ensures |Removed(es, user)| <= |es|
    ensures |Removed(es, user)| == |es| <==> user !in Denote(es)
    ensures forall x <- Removed(es, user) :: x in es
  {
    hide DistinctKeys, PermissionOf;
    if es != [] {
      DistinctHead(es);
      RemovedDenotes(es[1..], user);
      var rest := Removed(es[1..], user);
      if es[0].user == user {
        assert Removed(es, user) == rest;
      } else {
        DistinctCons(es[0], rest);
      }
    }
  }

  // ----- runs -----

  function NatsProtocol(): Protocol<Op, (), string> {
    Protocol((op: Op, e: (), conf: Option<string>) => Decide(op, conf), 1)
  }

  type NatsState = State<Op, (), string>
  type NatsAction = Action<Op, (), string>
  type NatsEvent = Event<Op, (), string>

  /** What a completed call means for the registry. */
  function Meaning(reg: Registry, op: Op): Registry {
    match op
    case Register(id) => reg[id.principal := Permission([id.natsPrefix], [id.natsPrefix])]
    case Unregister(id) => reg - {id.principal}
  }

  function Registered(log: seq<NatsEvent>): Registry {
    if log == [] then map[]
    else
      var e := log[|log| - 1];
      var before := Registered(log[..|log| - 1]);
      if e.Done? then Meaning(before, e.req) else before
  }

  /** Identities whose names pass through the text unescaped. */
  predicate CleanIdentity(id: Identity) {
    Plain(id.principal) && CleanSubject(id.natsPrefix)
  }

  /** A ConfigMap text that stands for `reg`: parsed, its users are unique and sorted, and
      its permissions are those of `reg`. */
  ghost predicate Represents(conf: Option<string>, reg: Registry) {
    if conf.None? then reg == map[]
    else
      var es := Parse(conf.value);
      StrictlySorted(UserOf, es) && (forall e <- es :: CleanEntry(e)) && Denote(es) == reg
  }

  lemma StrictIsDistinct(es: seq<Entry>)
    requires StrictlySorted(UserOf, es)
    ensures DistinctKeys(UserOf, es)
  {
    forall i, j | 0 <= i < j < |es| ensures UserOf(es[i]) != UserOf(es[j]) {
      LessIrreflexive(UserOf(es[i]));
    }
  }

  lemma RenderRepresents(es: seq<Entry>, reg: Registry)
    requires DistinctKeys(UserOf, es) && (forall e <- es :: CleanEntry(e)) && Denote(es) == reg
    ensures Represents(Some(Render(es)), reg)
  {
    hide SortBy, Denote, CleanEntry, Parse, Render;
    AuthzRoundTrip(es);
    StrictFromDistinct(UserOf, es);
    DenoteSorted(es);
    SortByMembers(UserOf, es);
  }

  /** One call, seen through the text, is one map update or one map deletion. */
  lemma DecideRefines(op: Op, conf: Option<string>, reg: Registry)
    requires Represents(conf, reg) && CleanIdentity(op.id)
    ensures var d := Decide(op, conf);
            !d.Reject? && Represents(if d.Put? then Some(d.value) else conf, Meaning(reg, op))
    ensures Decide(op, conf).Keep? <==> op.Unregister? && op.id.principal !in reg
  {
    hide Denote, CleanSubject, Plain, Parse, Render, Upsert, Removed;
    var es := if conf.None? then [] else Parse(conf.value);
    DenoteEmpty();
    assert StrictlySorted(UserOf, es);
    StrictIsDistinct(es);
    match op
    case Register(id) =>
      var e := BuildEntry(id);
      UpsertDenotes(es, e);
      UpsertEmpty(e);
      RenderRepresents(Upsert(es, e), Meaning(reg, op));
    case Unregister(id) =>
      var left := Removed(es, id.principal);
      RemovedDenotes(es, id.principal);
      if |left| == |es| {
        assert reg - {id.principal} == reg;
      } else {
        RenderRepresents(left, Meaning(reg, op));
      }
  }

  lemma DenoteEmpty()
    ensures Denote([]) == map[]
  {
  }

  lemma UpsertEmpty(e: Entry)
    ensures Upsert([], e) == [e]
  {
  }

  lemma {:induction false} ReplayRefines(log: seq<NatsEvent>)
    requires forall e <- log :: e.Done? && CleanIdentity(e.req.id)
    ensures Represents(Replay(NatsProtocol(), None, log), Registered(log))
  {
    hide Represents, Decide, Meaning, CleanIdentity;
    if log == [] {
      RepresentsEmpty();
    } else {
      var before := log[..|log| - 1];
      var e := log[|log| - 1];
      assert e in log && forall x <- before :: x in log;
      ReplayRefines(before);
      DecideRefines(e.req, Replay(NatsProtocol(), None, before), Registered(before));
    }
  }

  lemma RepresentsEmpty()
    ensures Represents(None, map[])
  {
  }

  ghost predicate CleanRun(acts: seq<NatsAction>) {
    forall a <- acts :: !a.Other? && (a.Begin? ==> CleanIdentity(a.req.id))
  }

  ghost predicate CleanState(s: NatsState) {
    && (forall id <- s.calls :: CleanIdentity(s.calls[id].req.id))
    && (forall e <- s.log :: e.Done? && CleanIdentity(e.req.id))
  }

  lemma StepKeepsClean(s: NatsState, a: NatsAction)
    requires CleanState(s) && !a.Other? && (a.Begin? ==> CleanIdentity(a.req.id))
    ensures CleanState(Step(NatsProtocol(), s, a))
  {
    hide Decide, CleanIdentity;
    var t := Step(NatsProtocol(), s, a);
    forall id | id in t.calls ensures CleanIdentity(t.calls[id].req.id) {
      assert id in s.calls || a.Begin?;
    }
  }

  lemma {:induction false} RunsLogClean(acts: seq<NatsAction>)
    requires CleanRun(acts)
    ensures CleanState(Run(NatsProtocol(), Initial(None), acts))
  {
    hide Decide, CleanIdentity, Step;
    if acts != [] {
      assert acts[|acts| - 1] in acts && forall a <- acts[..|acts| - 1] :: a in acts;
      RunsLogClean(acts[..|acts| - 1]);
      StepKeepsClean(Run(NatsProtocol(), Initial(None), acts[..|acts| - 1]), acts[|acts| - 1]);
    }
  }

  /** Over every interleaving of registrations and removals that starts without a ConfigMap, the
      text always stands for the map the completed calls leave behind, one after another; a call
      takes effect exactly once if it succeeds and not at all otherwise. */
  lemma RegistryRuns(acts: seq<NatsAction>)
    requires CleanRun(acts)
    ensures var s := Run(NatsProtocol(), Initial(None), acts);
            && Represents(s.item, Registered(s.log))
            && (forall id <- s.calls ::
                  CountOf(s.log, id) == (if s.calls[id].phase == Finished(true) then 1 else 0) &&
                  s.calls[id].conflicts <= 1)
            && (forall i :: 0 <= i < |s.log| ==>
                  s.log[i].Done? && s.log[i].id in s.calls && s.calls[s.log[i].id].req == s.log[i].req)
  {
    hide Represents, Decide, Meaning, CleanIdentity;
    var p := NatsProtocol();
    var s := Run(p, Initial(None), acts);
    RunKeeps(p, None, acts);
    RunsLogClean(acts);
    ReplayRefines(s.log);
    forall id | id in s.calls
      ensures CountOf(s.log, id) == (if s.calls[id].phase == Finished(true) then 1 else 0) && s.calls[id].conflicts <= 1
    {
      assert CallOk(p, s, id);
    }
  }

  /** The registry holds, for each principal, the prefix of its latest completed registration. */
  lemma {:induction false} RegisteredLatest(log: seq<NatsEvent>, principal: string) returns (k: nat)
    requires forall e <- log :: e.Done?
    ensures principal in Registered(log) ==>
              && k < |log| && log[k].req.Register? && log[k].req.id.principal == principal
              && Registered(log)[principal] == Permission([log[k].req.id.natsPrefix], [log[k].req.id.natsPrefix])
              && (forall j :: k < j < |log| ==> log[j].req.id.principal != principal)
    ensures principal !in Registered(log) ==>
              (forall j :: 0 <= j < |log| ==> log[j].req.id.principal != principal) ||
              (k < |log| && log[k].req == Unregister(log[k].req.id) && log[k].req.id.principal == principal &&
               forall j :: k < j < |log| ==> log[j].req.id.principal != principal)
  {
    k := 0;
    if log != [] {
      var before := log[..|log| - 1];
      assert log[|log| - 1] in log && forall x <- before :: x in log;
      if log[|log| - 1].req.id.principal == principal {
        k := |log| - 1;
      } else {
        k := RegisteredLatest(before, principal);
        assert forall j :: 0 <= j < |before| ==> before[j] == log[j];
      }
    }
  }
}
