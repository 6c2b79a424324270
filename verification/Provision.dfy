/** `enclave_provision` and `enclave_deprovision` (`pkg/tools/enclave.go`): a transaction over
    several API calls with a deferred rollback, under a cap on enclaves per owner. */
module Provision {
  import opened Wrappers
  import opened Text
  import opened Annotations
  import opened Caller
  import opened EnclaveAnnotations
  import opened EnclaveSync
  import Runs = EnclaveRuns
  import M = Mode
  import Optimistic

  datatype Resource = DefaultDeny | AllowDns | Quota | Limits | ServiceAccount | Role | RoleBinding | Exoskeleton

  /** The resources created after the annotations, in order. */
  const STEPS: seq<Resource> := [DefaultDeny, AllowDns, Quota, Limits, ServiceAccount, Role, RoleBinding]

  datatype Namespace = Namespace(managed: bool, ann: Annotations, resources: set<Resource>)

  type Cluster = map<string, Namespace>

  datatype ProvisionParams = ProvisionParams(
    name: string, ownerEmail: string, ownerSub: string, platform: string, channelId: string,
    channelName: string, quotaPreset: string, defaultMode: string, members: seq<string>)

  /** Which API calls fail, whether an exoskeleton controller is present, and the clock. */
  datatype Env = Env(
    now: string, exo: bool, listFails: bool, createFails: bool, getFails: bool, annotateFails: bool,
    stepFails: set<Resource>, deleteFails: bool)

  datatype Limits = LimitsOf(maxMembers: nat, maxOwned: nat)

  datatype ProvisionError =
    | BadQuotaPreset | TooManyMembers | CountFailed | OwnerAtLimit | CreateFailed | InvalidInfo(e: InfoError)
    | FetchFailed | AnnotateFailed | StepFailed(r: Resource)

  // ----- the cap -----

  predicate OwnedBy(ns: Namespace, owner: string) {
    ns.managed && IsEnclave(ns.ann) && ToLower(Get(ns.ann, EnclaveOwner)) == owner
  }

  function Owned(c: Cluster, owner: string): set<string> {
    set n | n in c && OwnedBy(c[n], owner)
  }

  /** `countEnclavesOwnedBy`, over the managed namespaces in whatever order they are listed. */
  method CountEnclavesOwnedBy(c: Cluster, ownerEmail: string) returns (count: nat)
    ensures count == |Owned(c, ownerEmail)|
  {
    hide OwnedBy, ToLower, ReadEnclaveInfo;
    var todo := set n | n in c && c[n].managed;
    ghost var all := Owned(c, ownerEmail);
    ghost var counted: set<string> := {};
    OwnedAreManaged(c, ownerEmail);
    count := 0;
    while todo != {}
      invariant forall n <- todo :: n in c && c[n].managed
      invariant counted == all - todo
      invariant count == |counted|
      decreases todo
    {
      var n :| n in todo;
      todo := todo - {n};
      OwnedTest(c[n], ownerEmail);
      if IsEnclave(c[n].ann) && ToLower(ReadEnclaveInfo(c[n].ann).owner) == ownerEmail {
        count := count + 1;
        counted := counted + {n};
      }
    }
    assert counted == all;
  }

  lemma OwnedTest(ns: Namespace, owner: string)
    requires ns.managed
    ensures OwnedBy(ns, owner) <==> IsEnclave(ns.ann) && ToLower(ReadEnclaveInfo(ns.ann).owner) == owner
  {
    hide ToLower, Members;
  }

  lemma OwnedAreManaged(c: Cluster, owner: string)
    ensures forall n <- Owned(c, owner) :: c[n].managed
  {
    hide ToLower;
  }

  // ----- provisioning -----

  function PresetOf(p: ProvisionParams): string {
    if p.quotaPreset == "" then "medium" else p.quotaPreset
  }

  function InfoOf(p: ProvisionParams, now: string): EnclaveInfo {
    EnclaveInfo(p.name, p.ownerEmail, p.ownerSub, p.platform, p.channelId, p.channelName,
                "active", p.defaultMode, now, now, p.members)
  }

  const FRESH := Namespace(true, map[], {})

  function Annotated(p: ProvisionParams, now: string): Namespace {
    FRESH.(ann := (map[] + WriteEnclaveAnnotations(InfoOf(p, now)))[EnclaveQuotaPreset := PresetOf(p)])
  }

  /** The resource steps up to the first failure. */
  function AfterSteps(ns: Namespace, n: nat, env: Env): (Namespace, Option<ProvisionError>)
    requires n <= |STEPS|
  {
    if n == 0 then (ns, None)
    else
      var (before, err) := AfterSteps(ns, n - 1, env);
      if err.Some? then (before, err)
      else if STEPS[n - 1] in env.stepFails then (before, Some(StepFailed(STEPS[n - 1])))
      else (before.(resources := before.resources + {STEPS[n - 1]}), None)
  }

  /** What the steps after namespace creation make of the fresh namespace. */
  function Populated(p: ProvisionParams, env: Env, lim: Limits): (Namespace, Option<ProvisionError>) {
    var info := InfoOf(p, env.now);
    if !ValidEnclaveInfo(info, lim.maxMembers) then
      (FRESH, Some(InvalidInfo(FirstInfoError(info, lim.maxMembers))))
    else if env.getFails then (FRESH, Some(FetchFailed))
    else if env.annotateFails then (FRESH, Some(AnnotateFailed))
    else
      var (ns, err) := AfterSteps(Annotated(p, env.now), |STEPS|, env);
      if err.Some? || !env.exo then (ns, err)
      else if Exoskeleton in env.stepFails then (ns, Some(StepFailed(Exoskeleton)))
      else (ns.(resources := ns.resources + {Exoskeleton}), None)
  }

  /** What follows once the count was found below the cap. */
  function Created(c: Cluster, p: ProvisionParams, env: Env, lim: Limits): (Cluster, Option<ProvisionError>) {
    if p.name in c || env.createFails then (c, Some(CreateFailed))
    else
      var (ns, err) := Populated(p, env, lim);
      if err.Some? && !env.deleteFails then (c, err) else (c[p.name := ns], err)
  }

  /** The whole of `handleEnclaveProvision`: the cluster it leaves, and its error if any. */
  function Provisioned(c: Cluster, p: ProvisionParams, env: Env, lim: Limits): (Cluster, Option<ProvisionError>) {
    if !ValidQuotaPreset(PresetOf(p)) then (c, Some(BadQuotaPreset))
    else if !ValidMembers(p.members, lim.maxMembers) then (c, Some(ProvisionError.TooManyMembers))
    else if env.listFails then (c, Some(CountFailed))
    else if |Owned(c, ToLower(p.ownerEmail))| >= lim.maxOwned then (c, Some(OwnerAtLimit))
    else Created(c, p, env, lim)
  }

  function Deprovisioned(c: Cluster, name: string, caller: Option<Deployer>, env: Env): Cluster {
    if name !in c || !IsEnclave(c[name].ann) then c
    else if IsOidc(caller) &&
      (caller.value.email == "" || caller.value.email != ReadEnclaveInfo(c[name].ann).owner) then c
    else if env.deleteFails then c
    else c - {name}
  }

  class Server {
    var cluster: Cluster
    const lim: Limits

    constructor (c: Cluster, lim: Limits)
      ensures cluster == c && this.lim == lim
    {
      cluster := c;
      this.lim := lim;
    }

    /** The steps that the rollback covers, on the namespace just created. */
    method Populate(p: ProvisionParams, env: Env) returns (err: Option<ProvisionError>)
      requires p.name in cluster && cluster[p.name] == FRESH
      modifies this
      ensures var (ns, e) := Populated(p, env, lim); cluster == old(cluster)[p.name := ns] && err == e
    {
      hide ValidEnclaveInfo, WriteEnclaveAnnotations;
      var info := InfoOf(p, env.now);
      ghost var c := cluster;
      assert c == c[p.name := FRESH];
      var invalid := ValidateEnclaveInfo(info, lim.maxMembers);
      if invalid.Some? {
        return Some(InvalidInfo(FirstInfoError(info, lim.maxMembers)));
      }
      if env.getFails {
        return Some(FetchFailed);
      }
      var ns := cluster[p.name];
      ns := ns.(ann := (ns.ann + WriteEnclaveAnnotations(info))[EnclaveQuotaPreset := PresetOf(p)]);
      if env.annotateFails {
        return Some(AnnotateFailed);
      }
      cluster := cluster[p.name := ns];
      var i := 0;
      while i < |STEPS|
        invariant 0 <= i <= |STEPS|
        invariant p.name in cluster && cluster == c[p.name := cluster[p.name]]
        invariant AfterSteps(Annotated(p, env.now), i, env) == (cluster[p.name], None)
      {
        if STEPS[i] in env.stepFails {
          StepsStop(Annotated(p, env.now), i, env);
          return Some(StepFailed(STEPS[i]));
        }
        var grown := cluster[p.name].(resources := cluster[p.name].resources + {STEPS[i]});
        cluster := cluster[p.name := grown];
        i := i + 1;
      }
      if env.exo {
        if Exoskeleton in env.stepFails {
          return Some(StepFailed(Exoskeleton));
        }
        var grown := cluster[p.name].(resources := cluster[p.name].resources + {Exoskeleton});
        cluster := cluster[p.name := grown];
      }
      return None;
    }

    /** `handleEnclaveProvision`. */
    method HandleEnclaveProvision(p: ProvisionParams, env: Env) returns (err: Option<ProvisionError>)
      modifies this
      ensures (cluster, err) == Provisioned(old(cluster), p, env, lim)
    {
      hide Populated, Owned, ToLower;
      if !ValidQuotaPreset(PresetOf(p)) {
        return Some(BadQuotaPreset);
      }
      if !ValidMembers(p.members, lim.maxMembers) {
        return Some(ProvisionError.TooManyMembers);
      }
      if env.listFails {
        return Some(CountFailed);
      }
      var count := CountEnclavesOwnedBy(cluster, ToLower(p.ownerEmail));
      if count >= lim.maxOwned {
        return Some(OwnerAtLimit);
      }
      if p.name in cluster || env.createFails {
        return Some(CreateFailed);
      }
      ghost var c := cluster;
      cluster := cluster[p.name := FRESH];
      err := Populate(p, env);
      ghost var ns := Populated(p, env, lim).0;
      assert cluster == c[p.name := ns];
      if err.Some? && !env.deleteFails {
        var name := p.name;
        cluster := cluster - {name};
        assert cluster == c;
      }
    }

    /** `handleEnclaveDeprovision`, as far as it touches namespaces. */
    method HandleEnclaveDeprovision(name: string, caller: Option<Deployer>, env: Env) returns (deleted: bool)
      modifies this
      ensures cluster == Deprovisioned(old(cluster), name, caller, env)
      ensures deleted <==> name in old(cluster) && name !in cluster
    {
      if name !in cluster || !IsEnclave(cluster[name].ann) {
        return false;
      }
      var info := ReadEnclaveInfo(cluster[name].ann);
      if IsOidc(caller) {
        if caller.value.email == "" || caller.value.email != info.owner {
          return false;
        }
      }
      if env.deleteFails {
        return false;
      }
      cluster := cluster - {name};
      return true;
    }
  }

  lemma StepsStop(ns: Namespace, i: nat, env: Env)
    requires i < |STEPS| && AfterSteps(ns, i, env).1.None? && STEPS[i] in env.stepFails
    ensures AfterSteps(ns, |STEPS|, env) == (AfterSteps(ns, i, env).0, Some(StepFailed(STEPS[i])))
  {
    StepsStay(ns, i + 1, |STEPS|, env);
  }

  lemma {:induction false} StepsStay(ns: Namespace, i: nat, n: nat, env: Env)
    requires i <= n <= |STEPS| && AfterSteps(ns, i, env).1.Some?
    ensures AfterSteps(ns, n, env) == AfterSteps(ns, i, env)
  {
    if i < n {
      StepsStay(ns, i, n - 1, env);
    }
  }

  // ----- all or nothing -----

  lemma {:induction false} StepsDone(ns: Namespace, n: nat, env: Env)
    requires n <= |STEPS|
    ensures var (r, err) := AfterSteps(ns, n, env);
            && r.managed == ns.managed && r.ann == ns.ann
            && (err.None? ==> r.resources == ns.resources + set x <- STEPS[..n])
            && (err.None? <==> forall x <- STEPS[..n] :: x !in env.stepFails)
  {
    if n > 0 {
      StepsDone(ns, n - 1, env);
      assert STEPS[..n] == STEPS[..n - 1] + [STEPS[n - 1]];
    }
  }

  /** For every pattern of failures: an error leaves the cluster as it was, unless the rollback
      itself failed; even then no namespace that existed is touched. Success adds one managed
      namespace with every resource. */
  lemma ProvisionAllOrNothing(c: Cluster, p: ProvisionParams, env: Env, lim: Limits)
    ensures var (d, err) := Provisioned(c, p, env, lim);
            && (err.Some? && !env.deleteFails ==> d == c)
            && c.Keys <= d.Keys <= c.Keys + {p.name}
            && (forall n <- c :: d[n] == c[n])
            && (err.None? ==>
                  && p.name !in c && p.name in d && d[p.name].managed
                  && d[p.name].resources ==
                     {DefaultDeny, AllowDns, Quota, Limits, ServiceAccount, Role, RoleBinding} +
                     (if env.exo then {Exoskeleton} else {})
                  && d[p.name].ann == Annotated(p, env.now).ann)
  {
    hide Populated, Created, ToLower, Owned, ValidQuotaPreset, PresetOf, ValidMembers;
    PopulatedShape(p, env, lim);
    CreatedShape(c, p, env, lim);
  }

  lemma CreatedShape(c: Cluster, p: ProvisionParams, env: Env, lim: Limits)
    ensures var (d, err) := Created(c, p, env, lim);
            var (ns, e) := Populated(p, env, lim);
            if p.name in c || env.createFails then d == c && err.Some?
            else err == e && d == if e.Some? && !env.deleteFails then c else c[p.name := ns]
  {
    hide Populated;
  }

  /** What the rollback covers: complete without an error, and without one exactly if the
      description is valid and no request fails. */
  lemma PopulatedShape(p: ProvisionParams, env: Env, lim: Limits)
    ensures var (ns, err) := Populated(p, env, lim);
            && (err.None? <==>
                  && ValidEnclaveInfo(InfoOf(p, env.now), lim.maxMembers) && !env.getFails && !env.annotateFails
                  && env.stepFails !! {DefaultDeny, AllowDns, Quota, Limits, ServiceAccount, Role, RoleBinding}
                  && (env.exo ==> Exoskeleton !in env.stepFails))
            && (err.None? ==>
                  && ns.managed && ns.ann == Annotated(p, env.now).ann
                  && ns.resources ==
                     {DefaultDeny, AllowDns, Quota, Limits, ServiceAccount, Role, RoleBinding} +
                     (if env.exo then {Exoskeleton} else {}))
  {
    hide ValidEnclaveInfo, WriteEnclaveAnnotations, FirstInfoError, AfterSteps, InfoOf;
    StepsComplete(Annotated(p, env.now), env);
    assert Annotated(p, env.now).resources == {} && Annotated(p, env.now).managed;
    var info := InfoOf(p, env.now);
    if ValidEnclaveInfo(info, lim.maxMembers) && !env.getFails && !env.annotateFails {
      var steps := AfterSteps(Annotated(p, env.now), |STEPS|, env);
      assert steps.1.Some? ==> Populated(p, env, lim).1.Some?;
      assert steps.1.None? && !env.exo ==> Populated(p, env, lim).1.None?;
      assert steps.1.None? && env.exo ==> (Populated(p, env, lim).1.None? <==> Exoskeleton !in env.stepFails);
    } else {
      assert Populated(p, env, lim).1.Some?;
    }
  }

  lemma StepsComplete(ns: Namespace, env: Env)
    requires ns.resources == {}
    ensures var (r, err) := AfterSteps(ns, |STEPS|, env);
            && r.managed == ns.managed && r.ann == ns.ann
            && (err.None? <==>
                  env.stepFails !! {DefaultDeny, AllowDns, Quota, Limits, ServiceAccount, Role, RoleBinding})
            && (err.None? ==>
                  r.resources == {DefaultDeny, AllowDns, Quota, Limits, ServiceAccount, Role, RoleBinding})
  {
    hide AfterSteps;
    StepsDone(ns, |STEPS|, env);
    SevenSteps();
    assert STEPS[..|STEPS|] == STEPS;
    var done := set x <- STEPS[..|STEPS|];
    assert done == {DefaultDeny, AllowDns, Quota, Limits, ServiceAccount, Role, RoleBinding};
    assert ns.resources + done == done;
    assert (forall x <- STEPS[..|STEPS|] :: x !in env.stepFails) <==> env.stepFails !! done by {
      assert forall x :: x in done <==> x in STEPS[..|STEPS|];
    }
  }

  lemma SevenSteps()
    ensures (set x <- STEPS) == {DefaultDeny, AllowDns, Quota, Limits, ServiceAccount, Role, RoleBinding}
    ensures forall x :: x in STEPS <==> x in {DefaultDeny, AllowDns, Quota, Limits, ServiceAccount, Role, RoleBinding}
  {
    var s := STEPS;
    assert s[0] == DefaultDeny && s[1] == AllowDns && s[2] == Quota && s[3] == Limits && s[4] == ServiceAccount &&
           s[5] == Role && s[6] == RoleBinding;
  }

  /** What a request must say to describe an enclave. */
  predicate Describes(p: ProvisionParams) {
    && 1 <= |p.name| <= 63 && Alnum(p.name[0]) && Alnum(p.name[|p.name| - 1])
    && (forall c <- p.name :: 'a' <= c <= 'z' || '0' <= c <= '9' || c == '-')
    && '@' in p.ownerEmail && (forall m <- p.members :: '@' in m)
    && (p.platform == "" || p.platform == "slack")
    && (p.defaultMode == "" || M.IsRwx(p.defaultMode))
    && (p.quotaPreset == "" || p.quotaPreset == "small" || p.quotaPreset == "medium" || p.quotaPreset == "large")
  }

  /** Exactly which provisions are accepted: a valid description with members within the limit, for
      an owner, in any letter case, of fewer enclaves than the cap, under a name not taken, and
      with no failed request on the way. */
  lemma ProvisionAccepted(c: Cluster, p: ProvisionParams, env: Env, lim: Limits)
    ensures Provisioned(c, p, env, lim).1.None? <==>
              && Describes(p) && |p.members| <= lim.maxMembers
              && |set n | n in c && c[n].managed && Get(c[n].ann, Enclave) != "" &&
                          ToLower(Get(c[n].ann, EnclaveOwner)) == ToLower(p.ownerEmail)| < lim.maxOwned
              && p.name !in c
              && !env.listFails && !env.createFails && !env.getFails && !env.annotateFails
              && env.stepFails !! {DefaultDeny, AllowDns, Quota, Limits, ServiceAccount, Role, RoleBinding}
              && (env.exo ==> Exoskeleton !in env.stepFails)
  {
    hide ValidEnclaveInfo, Populated, Created, ToLower, Owned, Describes, InfoOf, PresetOf, ValidQuotaPreset;
    OwnedSpelled(c, ToLower(p.ownerEmail));
    PopulatedShape(p, env, lim);
    CreatedShape(c, p, env, lim);
    DescribesIff(p, env.now, lim.maxMembers);
  }

  /** Why a provision is refused: the first of these, in order. A step that fails is named. */
  function ProvisionProblem(c: Cluster, p: ProvisionParams, env: Env, lim: Limits): Option<ProvisionError> {
    var info := InfoOf(p, env.now);
    if p.quotaPreset !in {"", "small", "medium", "large"} then Some(BadQuotaPreset)
    else if |p.members| > lim.maxMembers then Some(ProvisionError.TooManyMembers)
    else if env.listFails then Some(CountFailed)
    else if |Owned(c, ToLower(p.ownerEmail))| >= lim.maxOwned then Some(OwnerAtLimit)
    else if p.name in c || env.createFails then Some(CreateFailed)
    else if !ValidEnclaveInfo(info, lim.maxMembers) then Some(InvalidInfo(FirstInfoError(info, lim.maxMembers)))
    else if env.getFails then Some(FetchFailed)
    else if env.annotateFails then Some(AnnotateFailed)
    else if DefaultDeny in env.stepFails then Some(StepFailed(DefaultDeny))
    else if AllowDns in env.stepFails then Some(StepFailed(AllowDns))
    else if Quota in env.stepFails then Some(StepFailed(Quota))
    else if Limits in env.stepFails then Some(StepFailed(Limits))
    else if ServiceAccount in env.stepFails then Some(StepFailed(ServiceAccount))
    else if Role in env.stepFails then Some(StepFailed(Role))
    else if RoleBinding in env.stepFails then Some(StepFailed(RoleBinding))
    else if env.exo && Exoskeleton in env.stepFails then Some(StepFailed(Exoskeleton))
    else None
  }

  lemma ProvisionRefused(c: Cluster, p: ProvisionParams, env: Env, lim: Limits)
    ensures Provisioned(c, p, env, lim).1 == ProvisionProblem(c, p, env, lim)
  {
    hide ValidEnclaveInfo, WriteEnclaveAnnotations, FirstInfoError, ToLower, Owned, AfterSteps;
    CreatedShape(c, p, env, lim);
    StepsFirst(Annotated(p, env.now), env);
  }

  lemma StepsFirst(ns: Namespace, env: Env)
    ensures AfterSteps(ns, |STEPS|, env).1 ==
            if DefaultDeny in env.stepFails then Some(StepFailed(DefaultDeny))
            else if AllowDns in env.stepFails then Some(StepFailed(AllowDns))
            else if Quota in env.stepFails then Some(StepFailed(Quota))
            else if Limits in env.stepFails then Some(StepFailed(Limits))
            else if ServiceAccount in env.stepFails then Some(StepFailed(ServiceAccount))
            else if Role in env.stepFails then Some(StepFailed(Role))
            else if RoleBinding in env.stepFails then Some(StepFailed(RoleBinding))
            else None
  {
    hide AfterSteps;
    var s := STEPS;
    assert s[0] == DefaultDeny && s[1] == AllowDns && s[2] == Quota && s[3] == Limits && s[4] == ServiceAccount &&
           s[5] == Role && s[6] == RoleBinding;
    FirstFailure(ns, |STEPS|, env);
  }

  /** The steps fail as the first of them that does. */
  lemma {:induction false} FirstFailure(ns: Namespace, n: nat, env: Env)
    requires n <= |STEPS|
    ensures match AfterSteps(ns, n, env).1
            case None => forall i :: 0 <= i < n ==> STEPS[i] !in env.stepFails
            case Some(e) => exists i :: 0 <= i < n && STEPS[i] in env.stepFails && e == StepFailed(STEPS[i]) &&
                                        forall j :: 0 <= j < i ==> STEPS[j] !in env.stepFails
  {
    hide STEPS;
    if n > 0 { FirstFailure(ns, n - 1, env); }
  }

  lemma OwnedSpelled(c: Cluster, o: string)
    ensures Owned(c, o) ==
            set n | n in c && c[n].managed && Get(c[n].ann, Enclave) != "" && ToLower(Get(c[n].ann, EnclaveOwner)) == o
  {
    hide ToLower;
  }

  lemma DescribesIff(p: ProvisionParams, now: string, max: nat)
    ensures Describes(p) <==> ValidQuotaPreset(PresetOf(p)) && ValidEnclaveInfo(InfoOf(p, now).(members := []), max) &&
                              forall m <- p.members :: '@' in m
    ensures ValidEnclaveInfo(InfoOf(p, now), max) <==>
            ValidEnclaveInfo(InfoOf(p, now).(members := []), max) && (forall m <- p.members :: '@' in m) &&
            |p.members| <= max
  {
    hide M.IsRwx;
    assert '.' in p.name ==> !Alnum('.');
  }

  /** The annotations of a provisioned enclave read back to what was asked for: an active enclave
      of that owner with the default preset if none was given, and the same members exactly when
      they are normalized. */
  lemma ProvisionReadsBack(c: Cluster, p: ProvisionParams, env: Env, lim: Limits)
    requires Provisioned(c, p, env, lim).1.None?
    ensures var ann := Provisioned(c, p, env, lim).0[p.name].ann;
            var i := ReadEnclaveInfo(ann);
            && (i.enclave, i.owner, i.ownerSub) == (p.name, p.ownerEmail, p.ownerSub)
            && (i.platform, i.channelId, i.channelName) == (p.platform, p.channelId, p.channelName)
            && (i.status, i.defaultMode, i.createdAt, i.updatedAt) == ("active", p.defaultMode, env.now, env.now)
            && i.members == Members(FormatMembers(p.members))
            && (i.members == p.members <==> AllNormalized(p.members))
            && Get(ann, EnclaveQuotaPreset) == (if p.quotaPreset == "" then "medium" else p.quotaPreset)
            && IsEnclave(ann)
            && Get(ann, EnclaveOwner) == p.ownerEmail
  {
    hide Provisioned, Members, FormatMembers, WriteEnclaveAnnotations;
    ProvisionAllOrNothing(c, p, env, lim);
    ProvisionedIsValid(c, p, env, lim);
    var info := InfoOf(p, env.now);
    ReadAfterWrite(map[], info);
    MembersRoundTrip(p.members);
    InfoKeysWritten(map[], info, map[] + WriteEnclaveAnnotations(info));
    QuotaAside(map[] + WriteEnclaveAnnotations(info), PresetOf(p));
  }

  lemma ProvisionedIsValid(c: Cluster, p: ProvisionParams, env: Env, lim: Limits)
    requires Provisioned(c, p, env, lim).1.None?
    ensures p.name != ""
  {
    hide WriteEnclaveAnnotations, FirstInfoError, ToLower, AfterSteps;
  }

  lemma QuotaAside(ann: Annotations, preset: string)
    ensures ReadEnclaveInfo(ann[EnclaveQuotaPreset := preset]) == ReadEnclaveInfo(ann)
  {
    hide Members;
  }

  /** Exactly which deprovisions delete: of an enclave, by a platform operator or an internal call, or
      by an OIDC caller whose e-mail is the recorded owner's, letter for letter; and they delete
      that namespace and no other. */
  lemma DeprovisionAccepted(c: Cluster, name: string, caller: Option<Deployer>, env: Env)
    ensures var d := Deprovisioned(c, name, caller, env);
            && (name in c && name !in d <==>
                  && name in c && Get(c[name].ann, Enclave) != "" && !env.deleteFails
                  && (caller.Some? && caller.value.provider != "bearer-token" ==>
                        caller.value.email != "" && caller.value.email == Get(c[name].ann, EnclaveOwner)))
            && (forall n :: n != name ==> (n in d <==> n in c))
            && (forall n <- d :: n in c && d[n] == c[n])
  {
    hide Members;
  }

  // ----- the cap over runs -----

  ghost predicate WithinCap(c: Cluster, max: nat) {
    forall o: string :: |Owned(c, o)| <= max
  }

  datatype Op =
    | DoProvision(p: ProvisionParams, env: Env)
    | DoDeprovision(name: string, caller: Option<Deployer>, denv: Env)
    | DoSync(name: string, sp: SyncParams, caller: Option<Deployer>, senv: SyncEnv)

  /** The cluster after a sync of the named enclave, if it is accepted. */
  function Synced(
      c: Cluster, name: string, p: SyncParams, caller: Option<Deployer>, env: SyncEnv, maxMembers: nat): Cluster
  {
    if name !in c then c
    else
      var r := Sync(c[name].ann, p, caller, env, maxMembers);
      if r.Ok? then c[name := c[name].(ann := r.value)] else c
  }

  function Perform(c: Cluster, op: Op, lim: Limits): Cluster {
    match op
    case DoProvision(p, env) => Provisioned(c, p, env, lim).0
    case DoDeprovision(name, caller, env) => Deprovisioned(c, name, caller, env)
    case DoSync(name, p, caller, env) => Synced(c, name, p, caller, env, lim.maxMembers)
  }

  function PerformAll(c: Cluster, ops: seq<Op>, lim: Limits): Cluster {
    if ops == [] then c else Perform(PerformAll(c, ops[..|ops| - 1], lim), ops[|ops| - 1], lim)
  }

  lemma PopulatedOwner(p: ProvisionParams, env: Env, lim: Limits, o: string)
    ensures OwnedBy(Populated(p, env, lim).0, o) ==> o == ToLower(p.ownerEmail)
  {
    hide ValidEnclaveInfo, WriteEnclaveAnnotations, FirstInfoError, ToLower, Members;
    StepsDone(Annotated(p, env.now), |STEPS|, env);
    var info := InfoOf(p, env.now);
    InfoKeysWritten(map[], info, map[] + WriteEnclaveAnnotations(info));
  }

  lemma OwnedAdd(c: Cluster, name: string, ns: Namespace, o: string)
    requires name !in c
    ensures Owned(c[name := ns], o) == Owned(c, o) + if OwnedBy(ns, o) then {name} else {}
  {
    hide OwnedBy;
  }

  lemma OwnedDrop(c: Cluster, name: string, o: string)
    ensures |Owned(c - {name}, o)| <= |Owned(c, o)|
  {
    hide OwnedBy;
    Smaller(Owned(c - {name}, o), Owned(c, o));
  }

  lemma Smaller(a: set<string>, b: set<string>)
    requires a <= b
    ensures |a| <= |b|
  {
    assert b == a + (b - a);
  }

  /** An ownership transfer keeps the cap: the enclave is not counted, or stays with the same
      person, or goes to someone with room for one more. */
  predicate RoomForEnclave(c: Cluster, name: string, newOwner: string, max: nat)
    requires name in c
  {
    || newOwner == "" || !c[name].managed
    || ToLower(newOwner) == ToLower(Get(c[name].ann, EnclaveOwner))
    || |Owned(c, ToLower(newOwner))| < max
  }

  lemma OwnedReplace(c: Cluster, name: string, ns: Namespace, o: string)
    requires name in c
    ensures var d := c[name := ns];
            && (OwnedBy(ns, o) && !OwnedBy(c[name], o) ==> |Owned(d, o)| == |Owned(c, o)| + 1)
            && (OwnedBy(ns, o) == OwnedBy(c[name], o) ==> |Owned(d, o)| == |Owned(c, o)|)
            && |Owned(d, o)| <= |Owned(c, o)| + 1
            && (!OwnedBy(ns, o) ==> |Owned(d, o)| <= |Owned(c, o)|)
  {
    hide OwnedBy;
    var d := c[name := ns];
    if OwnedBy(ns, o) {
      assert Owned(d, o) == Owned(c, o) + {name};
    } else {
      assert Owned(d, o) == Owned(c, o) - {name};
      Smaller(Owned(d, o), Owned(c, o));
    }
  }

  lemma SyncedOwner(
      ns: Namespace, p: SyncParams, caller: Option<Deployer>, env: SyncEnv, maxMembers: nat, o: string)
    requires Sync(ns.ann, p, caller, env, maxMembers).Ok?
    ensures var after := ns.(ann := Sync(ns.ann, p, caller, env, maxMembers).value);
            && OwnedBy(ns, o) == (ns.managed && ToLower(Get(ns.ann, EnclaveOwner)) == o)
            && OwnedBy(after, o) ==
               (ns.managed && ToLower(if p.newOwner == "" then Get(ns.ann, EnclaveOwner) else p.newOwner) == o)
  {
    hide Sync, ToLower, Members, FormatMembers;
    Runs.SyncAccepted(ns.ann, p, caller, env, maxMembers);
    Runs.SyncEffects(ns.ann, p, caller, env, maxMembers);
  }

  /** A sync checks no cap. An accepted one keeps every owner within the cap exactly when it does
      not hand the enclave to someone else who has reached it. */
  lemma SyncKeepsCap(
      c: Cluster, name: string, p: SyncParams, caller: Option<Deployer>, env: SyncEnv, maxMembers: nat, max: nat)
    requires name in c && Sync(c[name].ann, p, caller, env, maxMembers).Ok? && WithinCap(c, max)
    ensures WithinCap(Synced(c, name, p, caller, env, maxMembers), max) <==> RoomForEnclave(c, name, p.newOwner, max)
  {
    hide Sync, OwnedBy, ToLower, Owned;
    var ns := c[name].(ann := Sync(c[name].ann, p, caller, env, maxMembers).value);
    var d := Synced(c, name, p, caller, env, maxMembers);
    forall o: string
      ensures RoomForEnclave(c, name, p.newOwner, max) ==> |Owned(d, o)| <= max
    {
      SyncedOwner(c[name], p, caller, env, maxMembers, o);
      OwnedReplace(c, name, ns, o);
    }
    var o := ToLower(p.newOwner);
    SyncedOwner(c[name], p, caller, env, maxMembers, o);
    OwnedReplace(c, name, ns, o);
    assert !RoomForEnclave(c, name, p.newOwner, max) ==> |Owned(d, o)| == |Owned(c, o)| + 1;
  }

  /** Whether an operation leaves the cap alone: everything does but an accepted transfer to
      someone who has reached it. */
  predicate LeavesCap(c: Cluster, op: Op, lim: Limits) {
    op.DoSync? && op.name in c && Sync(c[op.name].ann, op.sp, op.caller, op.senv, lim.maxMembers).Ok? ==>
      RoomForEnclave(c, op.name, op.sp.newOwner, lim.maxOwned)
  }

  lemma PerformKeepsCap(c: Cluster, op: Op, lim: Limits)
    requires WithinCap(c, lim.maxOwned)
    ensures WithinCap(Perform(c, op, lim), lim.maxOwned) <==> LeavesCap(c, op, lim)
  {
    hide OwnedBy, Populated, ReadEnclaveInfo, ToLower, Owned, Sync, RoomForEnclave;
    if op.DoSync? {
      if op.name in c && Sync(c[op.name].ann, op.sp, op.caller, op.senv, lim.maxMembers).Ok? {
        SyncKeepsCap(c, op.name, op.sp, op.caller, op.senv, lim.maxMembers, lim.maxOwned);
      }
    } else {
      forall o ensures |Owned(Perform(c, op, lim), o)| <= lim.maxOwned {
        match op
        case DoProvision(p, env) =>
          if p.name !in c {
            PopulatedOwner(p, env, lim, o);
            OwnedAdd(c, p.name, Populated(p, env, lim).0, o);
          }
        case DoDeprovision(name, caller, env) =>
          OwnedDrop(c, name, o);
        case _ =>
      }
    }
  }

  /** Over every sequence of provisions, deprovisions and syncs by any callers, with any failures,
      rollbacks included: no owner in any letter case ever has more enclaves than the cap,
      exactly when no accepted transfer on the way went to someone who had reached it. */
  lemma RunsKeepCap(c: Cluster, ops: seq<Op>, lim: Limits)
    requires WithinCap(c, lim.maxOwned)
    ensures (forall k :: 0 <= k <= |ops| ==> WithinCap(PerformAll(c, ops[..k], lim), lim.maxOwned)) <==>
            (forall k :: 0 <= k < |ops| ==> LeavesCap(PerformAll(c, ops[..k], lim), ops[k], lim))
  {
    hide WithinCap, Perform, LeavesCap;
    if forall k :: 0 <= k <= |ops| ==> WithinCap(PerformAll(c, ops[..k], lim), lim.maxOwned) {
      forall k | 0 <= k < |ops| ensures LeavesCap(PerformAll(c, ops[..k], lim), ops[k], lim) {
        assert WithinCap(PerformAll(c, ops[..k], lim), lim.maxOwned);
        assert WithinCap(PerformAll(c, ops[..k + 1], lim), lim.maxOwned);
        assert ops[..k + 1][..k] == ops[..k];
        PerformKeepsCap(PerformAll(c, ops[..k], lim), ops[k], lim);
      }
    }
    if forall k :: 0 <= k < |ops| ==> LeavesCap(PerformAll(c, ops[..k], lim), ops[k], lim) {
      forall k | 0 <= k <= |ops| ensures WithinCap(PerformAll(c, ops[..k], lim), lim.maxOwned) {
        PrefixKeepsCap(c, ops, k, lim);
      }
    }
  }

  lemma {:induction false} PrefixKeepsCap(c: Cluster, ops: seq<Op>, k: nat, lim: Limits)
    requires k <= |ops| && WithinCap(c, lim.maxOwned)
    requires forall j :: 0 <= j < k ==> LeavesCap(PerformAll(c, ops[..j], lim), ops[j], lim)
    ensures WithinCap(PerformAll(c, ops[..k], lim), lim.maxOwned)
  {
    hide WithinCap, Perform, LeavesCap;
    if k > 0 {
      PrefixKeepsCap(c, ops, k - 1, lim);
      assert ops[..k][..k - 1] == ops[..k - 1];
      PerformKeepsCap(PerformAll(c, ops[..k - 1], lim), ops[k - 1], lim);
    }
  }

  /** The cap is counted before the namespace is created: of two provisions for an owner one below
      the cap, which would each succeed alone, both succeed if both count before either creates,
      and the owner is over the cap. One after the other, the second is refused. */
  lemma ConcurrentProvisions(c: Cluster, p: ProvisionParams, q: ProvisionParams, env: Env, lim: Limits)
    requires ToLower(p.ownerEmail) == ToLower(q.ownerEmail) && p.name != q.name
    requires Provisioned(c, p, env, lim).1.None? && Provisioned(c, q, env, lim).1.None?
    requires |Owned(c, ToLower(p.ownerEmail))| + 1 == lim.maxOwned
    ensures var d := Created(Created(c, p, env, lim).0, q, env, lim);
            d.1.None? && |Owned(d.0, ToLower(p.ownerEmail))| == lim.maxOwned + 1
    ensures Provisioned(Provisioned(c, p, env, lim).0, q, env, lim).1 == Some(OwnerAtLimit)
  {
    hide Populated, Owned, ToLower, WithinCap;
    var o := ToLower(p.ownerEmail);
    var np, nq := Populated(p, env, lim).0, Populated(q, env, lim).0;
    PopulatedOwned(c, p, env, lim);
    PopulatedOwned(c, q, env, lim);
    OwnedOneMore(c, p.name, np, o);
    OwnedOneMore(c[p.name := np], q.name, nq, o);
  }

  lemma OwnedOneMore(c: Cluster, name: string, ns: Namespace, o: string)
    requires name !in c && OwnedBy(ns, o)
    ensures |Owned(c[name := ns], o)| == |Owned(c, o)| + 1
  {
    hide OwnedBy;
    OwnedAdd(c, name, ns, o);
    assert name !in Owned(c, o);
  }

  lemma PopulatedOwned(c: Cluster, p: ProvisionParams, env: Env, lim: Limits)
    requires Provisioned(c, p, env, lim).1.None?
    ensures Populated(p, env, lim).1.None? && OwnedBy(Populated(p, env, lim).0, ToLower(p.ownerEmail))
    ensures p.name !in c && !env.createFails
  {
    hide Populated, Owned, ToLower, ReadEnclaveInfo;
    ProvisionAllOrNothing(c, p, env, lim);
    ProvisionReadsBack(c, p, env, lim);
  }

  function SampleEnclave(owner: string, members: seq<string>): Namespace {
    FRESH.(ann := WriteEnclaveAnnotations(Runs.Sample(owner, members)))
  }

  /** With a cap of one, an owner of one enclave hands it to a member who owns another, and the
      sync is accepted: that member then owns two. */
  lemma TransferExceedsCap()
    ensures var c: Cluster := map["x" := SampleEnclave("a", ["b"]), "y" := SampleEnclave("b", [])];
            var p := SyncParams("b", "", "", "", "", [], []);
            && WithinCap(c, 1) && Sync(c["x"].ann, p, None, Runs.ANYTIME, 1).Ok?
            && Owned(Synced(c, "x", p, None, Runs.ANYTIME, 1), "b") == {"x", "y"}
  {
    hide Sync, OwnedBy, ToLower, WriteEnclaveAnnotations, ReadEnclaveInfo, Added, Without;
    var c: Cluster := map["x" := SampleEnclave("a", ["b"]), "y" := SampleEnclave("b", [])];
    var p := SyncParams("b", "", "", "", "", [], []);
    SampleOwner("a", ["b"]);
    SampleOwner("b", []);
    forall o: string ensures |Owned(c, o)| <= 1 {
      if o == "a" {
        assert Owned(c, o) == {"x"};
      } else if o == "b" {
        assert Owned(c, o) == {"y"};
      } else {
        assert Owned(c, o) == {};
      }
    }
    OneMember();
    Runs.SyncAccepted(c["x"].ann, p, None, Runs.ANYTIME, 1);
    SyncedOwner(c["x"], p, None, Runs.ANYTIME, 1, "b");
    var d := Synced(c, "x", p, None, Runs.ANYTIME, 1);
    assert "x" in d && "y" in d && "x" != "y";
    assert d["y"] == c["y"];
  }

  lemma SampleOwner(owner: string, members: seq<string>)
    requires (owner == "a" && members == ["b"]) || (owner == "b" && members == [])
    ensures forall o: string :: OwnedBy(SampleEnclave(owner, members), o) <==> o == owner
    ensures IsEnclave(SampleEnclave(owner, members).ann)
    ensures ReadEnclaveInfo(SampleEnclave(owner, members).ann) == Runs.Sample(owner, members)
    ensures ToLower(owner) == owner
  {
    hide ToLower, WriteEnclaveAnnotations, Members;
    Runs.LettersRead("a");
    Runs.LettersRead("b");
    Runs.SampleReads(Runs.Sample(owner, members));
  }

  lemma OneMember()
    ensures Added(["b"], "a", []) == ["b"] && Without(["b"], []) == ["b"]
  {
  }

  /** From provisioning on: under e-mails that pass the caller's tests the member count of an
      enclave stays within the limit in every interleaved run of syncs; and with normalized
      e-mails, members provisioned distinct and other than the owner stay so. */
  lemma EnclaveLife(c: Cluster, p: ProvisionParams, env: Env, lim: Limits, acts: seq<Runs.SyncAction>)
    requires Provisioned(c, p, env, lim).1.None?
    ensures var ann := Provisioned(c, p, env, lim).0[p.name].ann;
            var s: Runs.SyncState :=
              Optimistic.Run(Runs.SyncProtocol(lim.maxMembers), Optimistic.Initial(Some(ann)), acts);
            && (CommaFree(p.members) && ',' !in p.ownerEmail && ToLower(p.ownerEmail) == p.ownerEmail &&
                Runs.RunOf(acts, a => Runs.Bounded(a, lim.maxMembers), Runs.BoundedRequest) && s.item.Some? ==>
                  |ReadEnclaveInfo(s.item.value).members| <= lim.maxMembers)
            && (AllNormalized(p.members) && Normalized(p.ownerEmail) &&
                Runs.NoDuplicates(p.members) && p.ownerEmail !in p.members &&
                Runs.RunOf(acts, Runs.ProperlyOwned, Runs.NormalizedRequest) && s.item.Some? ==>
                  Runs.Proper(s.item.value))
  {
    hide Provisioned, Runs.RunOf, Optimistic.Run, ReadEnclaveInfo, Normalized, ToLower, Members, FormatMembers,
      Runs.NormalizedRequest, Runs.BoundedRequest, ReadBack;
    ProvisionedMembersFit(c, p, env, lim);
    var ann := Provisioned(c, p, env, lim).0[p.name].ann;
    ProvisionReadsBack(c, p, env, lim);
    if CommaFree(p.members) && ',' !in p.ownerEmail && ToLower(p.ownerEmail) == p.ownerEmail &&
      Runs.RunOf(acts, a => Runs.Bounded(a, lim.maxMembers), Runs.BoundedRequest)
    {
      MembersPerEntry(p.members);
      ReadBackCount(p.members);
      Runs.RunsKeepBound(ann, acts, lim.maxMembers);
    }
    if AllNormalized(p.members) && Normalized(p.ownerEmail) && Runs.NoDuplicates(p.members) &&
      p.ownerEmail !in p.members && Runs.RunOf(acts, Runs.ProperlyOwned, Runs.NormalizedRequest)
    {
      Runs.NormalizedIsLower(p.ownerEmail);
      Runs.RunsKeepProper(ann, acts, lim.maxMembers);
    }
  }

  lemma ProvisionedMembersFit(c: Cluster, p: ProvisionParams, env: Env, lim: Limits)
    requires Provisioned(c, p, env, lim).1.None?
    ensures |p.members| <= lim.maxMembers
    ensures p.name in Provisioned(c, p, env, lim).0
  {
    hide Populated, Owned, ToLower;
  }
}
