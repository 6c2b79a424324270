/** What `enclave_sync` guarantees over whole runs: concurrent calls are serial, changes are
    authorized, and the member list keeps its shape. */
module EnclaveRuns {
  import opened Wrappers
  import opened Text
  import opened Annotations
  import opened Caller
  import opened EnclaveAnnotations
  import opened EnclaveSync
  import opened Optimistic
  import M = Mode
  import T = Tentacles

  datatype Request = Request(params: SyncParams, caller: Option<Deployer>)

  function Apply(r: Request, env: SyncEnv, item: Option<Annotations>, max: nat): Outcome<Annotations> {
    if item.None? then Reject
    else
      var o := Sync(item.value, r.params, r.caller, env, max);
      if o.Ok? then Put(o.value) else Reject
  }

  function SyncProtocol(max: nat): Protocol<Request, SyncEnv, Annotations> {
    Protocol((r: Request, e: SyncEnv, i: Option<Annotations>) => Apply(r, e, i, max), MAX_SYNC_RETRIES)
  }

  type SyncState = State<Request, SyncEnv, Annotations>
  type SyncAction = Optimistic.Action<Request, SyncEnv, Annotations>

  /** The commit at index `i` of the history is the pure sync of the very state it replaced. */
  ghost predicate CommitIsSync(max: nat, init: Option<Annotations>, log: seq<Event<Request, SyncEnv, Annotations>>,
      i: nat)
    requires i < |log| && log[i].Done?
  {
    var before := Replay(SyncProtocol(max), init, log[..i]);
    && before.Some?
    && var r := log[i].req;
       var o := Sync(before.value, r.params, r.caller, log[i].env, max);
       && o.Ok?
       && Replay(SyncProtocol(max), init, log[..i + 1]) == Some(o.value)
       && (IsOwnerOp(r.params) && IsOidc(r.caller) ==>
             r.caller.value.email != "" && r.caller.value.email == ReadEnclaveInfo(before.value).owner)
  }

  lemma SyncAuthorized(ann: Annotations, p: SyncParams, caller: Option<Deployer>, env: SyncEnv, max: nat)
    requires Sync(ann, p, caller, env, max).Ok?
    requires IsOwnerOp(p) && IsOidc(caller)
    ensures caller.value.email != "" && caller.value.email == ReadEnclaveInfo(ann).owner
  {
  }

  lemma CommitsAreSyncs(init: Option<Annotations>, log: seq<Event<Request, SyncEnv, Annotations>>, max: nat, i: nat)
    requires i < |log| && log[i].Done? && Accepted(SyncProtocol(max), init, log, i)
    ensures CommitIsSync(max, init, log, i)
  {
    hide Sync, Replay;
    var p := SyncProtocol(max);
    assert log[..i + 1] == log[..i] + [log[i]];
    ReplaySnoc(p, init, log[..i], log[i]);
    var before := Replay(p, init, log[..i]);
    var r := log[i].req;
    if IsOwnerOp(r.params) && IsOidc(r.caller) {
      SyncAuthorized(before.value, r.params, r.caller, log[i].env, max);
    }
  }

  lemma ThreeAttempts(max: nat)
    ensures SyncProtocol(max).attempts == 3
  {
  }

  /** Under any interleaving of syncs and foreign writes: the namespace is what the committed
      syncs produce one after another; a call that succeeded committed exactly once, any other
      call never; each commit is the pure sync of the state it replaced, authorized by the owner
      recorded there; and no call meets more than three conflicts. */
  lemma SyncRunsAreSerial(init: Option<Annotations>, acts: seq<SyncAction>, max: nat)
    ensures var s: SyncState := Run(SyncProtocol(max), Initial(init), acts);
            && s.item == Replay(SyncProtocol(max), init, s.log)
            && (forall id <- s.calls ::
                  CountOf(s.log, id) == (if s.calls[id].phase == Finished(true) then 1 else 0) &&
                  s.calls[id].conflicts <= 3)
            && (forall i :: 0 <= i < |s.log| && s.log[i].Done? ==>
                  s.log[i].id in s.calls && s.calls[s.log[i].id].req == s.log[i].req &&
                  CommitIsSync(max, init, s.log, i))
  {
    hide Sync, SyncProtocol, CommitIsSync, Accepted, Replay, Run;
    var p := SyncProtocol(max);
    ThreeAttempts(max);
    var s: SyncState := Run(p, Initial(init), acts);
    RunKeeps(p, init, acts);
    forall id | id in s.calls
      ensures CountOf(s.log, id) == (if s.calls[id].phase == Finished(true) then 1 else 0) &&
              s.calls[id].conflicts <= 3
    {
      assert CallOk(p, s, id);
    }
    forall i | 0 <= i < |s.log| && s.log[i].Done? ensures CommitIsSync(max, init, s.log, i) {
      assert Accepted(p, init, s.log, i);
      CommitsAreSyncs(init, s.log, max, i);
    }
  }

  lemma SyncNeverConflicts(item: Option<Annotations>, p: SyncParams, caller: Option<Deployer>, env: SyncEnv, max: nat)
    ensures item.Some? ==> Sync(item.value, p, caller, env, max) != Err(Conflict)
  {
    hide ReadEnclaveInfo, WriteEnclaveAnnotations, M.Parse, Added, Without;
  }

  /** The retry loop of one call, with the other clients' writes spelled out, agrees with the
      serial reading: success means no write came between the read and the write of the last
      attempt, and the namespace then holds the sync of the state the last foreign write left. */
  lemma {:induction false} RetriesLoseNothing(
      item: Option<Annotations>, p: SyncParams, caller: Option<Deployer>, rounds: seq<Attempt>, max: nat)
    returns (k: nat)
    ensures var o := SyncOutcome(item, p, caller, rounds, max);
            && k <= |rounds|
            && (o.1.Ok? ==>
                  && k < |rounds| && rounds[k].writes == [] && !rounds[k].getFails && !rounds[k].updateFails
                  && (forall j :: 0 <= j < k ==> rounds[j].writes != [])
                  && var before := if k == 0 then item else Last(None, rounds[k - 1].writes);
                     && before.Some?
                     && o.1 == Sync(before.value, p, caller, rounds[k].env, max)
                     && o.0 == Some(o.1.value))
            && (o.1.Err? ==>
                  || o.0 == item
                  || exists j :: 0 <= j < |rounds| && rounds[j].writes != [] && o.0 == Last(None, rounds[j].writes))
    decreases rounds
  {
    hide Sync;
    k := 0;
    if rounds != [] {
      var o := AttemptOutcome(item, p, caller, rounds[0], max);
      if o.1 == Err(Conflict) {
        SyncNeverConflicts(item, p, caller, rounds[0].env, max);
        var k' := RetriesLoseNothing(o.0, p, caller, rounds[1..], max);
        k := k' + 1;
        assert forall j :: 1 <= j < |rounds| ==> rounds[j] == rounds[1..][j - 1];
      }
    }
  }

  /** The namespace an attempt reads: what the foreign writes of the one before left. */
  function ItemAt(item: Option<Annotations>, rounds: seq<Attempt>, k: nat): Option<Annotations>
    requires k <= |rounds|
  {
    if k == 0 then item else Last(None, rounds[k - 1].writes)
  }

  /** An attempt is started over exactly when everything else went well and the namespace, still
      there, was written between its read and its write. */
  predicate Overtaken(item: Option<Annotations>, p: SyncParams, caller: Option<Deployer>, a: Attempt, max: nat) {
    && item.Some? && !a.getFails && Sync(item.value, p, caller, a.env, max).Ok? && !a.updateFails
    && a.writes != [] && a.writes[|a.writes| - 1].Some?
  }

  lemma OvertakenConflicts(item: Option<Annotations>, p: SyncParams, caller: Option<Deployer>, a: Attempt, max: nat)
    ensures AttemptOutcome(item, p, caller, a, max).1 == Err(Conflict) <==> Overtaken(item, p, caller, a, max)
    ensures Overtaken(item, p, caller, a, max) ==>
              AttemptOutcome(item, p, caller, a, max).0 == Last(None, a.writes)
  {
    hide Sync;
    if item.Some? { SyncNeverConflicts(item, p, caller, a.env, max); }
  }

  /** The tentacles after the first `k` attempts, each handing on what it could. */
  function HandedOnBy(ds: T.Deployments, item: Option<Annotations>, p: SyncParams, caller: Option<Deployer>,
                      rounds: seq<Attempt>, max: nat, k: nat): T.Deployments
    requires k <= |rounds|
  {
    if k == 0 then ds
    else
      TentaclesAfter(HandedOnBy(ds, item, p, caller, rounds, max, k - 1), ItemAt(item, rounds, k - 1), p, caller,
                     rounds[k - 1], max)
  }

  /** While attempts are overtaken, the call goes on from what the last foreign write left. */
  lemma {:induction false} StartedOver(ds: T.Deployments, item: Option<Annotations>, p: SyncParams,
      caller: Option<Deployer>, rounds: seq<Attempt>, max: nat, k: nat)
    requires k <= |rounds|
    requires forall j :: 0 <= j < k ==> Overtaken(ItemAt(item, rounds, j), p, caller, rounds[j], max)
    ensures SyncOutcome(item, p, caller, rounds, max) ==
            SyncOutcome(ItemAt(item, rounds, k), p, caller, rounds[k..], max)
    ensures TentaclesLeft(ds, item, p, caller, rounds, max) ==
            TentaclesLeft(HandedOnBy(ds, item, p, caller, rounds, max, k), ItemAt(item, rounds, k), p, caller,
                          rounds[k..], max)
  {
    hide Sync, AttemptOutcome, TentaclesAfter, Overtaken;
    if k == 0 {
      assert rounds[0..] == rounds;
    } else {
      StartedOver(ds, item, p, caller, rounds, max, k - 1);
      OvertakenConflicts(ItemAt(item, rounds, k - 1), p, caller, rounds[k - 1], max);
      assert rounds[k - 1..][0] == rounds[k - 1] && rounds[k - 1..][1..] == rounds[k..];
    }
  }

  /** Which attempt decides a call: the first that is not overtaken, or the last one. It works on
      what the last foreign write left; the call ends as it does, in a conflict only if every
      attempt was overtaken; and every attempt up to it has handed on what it could. */
  lemma DecidingAttempt(
      ds: T.Deployments, item: Option<Annotations>, p: SyncParams, caller: Option<Deployer>, rounds: seq<Attempt>,
      max: nat)
    returns (k: nat)
    requires rounds != []
    ensures k < |rounds|
    ensures forall j :: 0 <= j < k ==> Overtaken(ItemAt(item, rounds, j), p, caller, rounds[j], max)
    ensures k < |rounds| - 1 ==> !Overtaken(ItemAt(item, rounds, k), p, caller, rounds[k], max)
    ensures SyncOutcome(item, p, caller, rounds, max) ==
            AttemptOutcome(ItemAt(item, rounds, k), p, caller, rounds[k], max)
    ensures SyncOutcome(item, p, caller, rounds, max).1 == Err(Conflict) <==>
            forall j :: 0 <= j < |rounds| ==> Overtaken(ItemAt(item, rounds, j), p, caller, rounds[j], max)
    ensures TentaclesLeft(ds, item, p, caller, rounds, max) == HandedOnBy(ds, item, p, caller, rounds, max, k + 1)
  {
    hide Sync, AttemptOutcome, TentaclesAfter, Overtaken, ItemAt, SyncOutcome, TentaclesLeft, HandedOnBy;
    k := 0;
    while k < |rounds| - 1 && Overtaken(ItemAt(item, rounds, k), p, caller, rounds[k], max)
      invariant k < |rounds|
      invariant forall j :: 0 <= j < k ==> Overtaken(ItemAt(item, rounds, j), p, caller, rounds[j], max)
    {
      k := k + 1;
    }
    StartedOver(ds, item, p, caller, rounds, max, k);
    LastAttempt(HandedOnBy(ds, item, p, caller, rounds, max, k), ItemAt(item, rounds, k), p, caller, rounds[k..], max);
    assert rounds[k..][0] == rounds[k];
    OvertakenConflicts(ItemAt(item, rounds, k), p, caller, rounds[k], max);
    HandedOnUnfold(ds, item, p, caller, rounds, max, k);
  }

  lemma HandedOnUnfold(ds: T.Deployments, item: Option<Annotations>, p: SyncParams, caller: Option<Deployer>,
      rounds: seq<Attempt>, max: nat, k: nat)
    requires k < |rounds|
    ensures HandedOnBy(ds, item, p, caller, rounds, max, k + 1) ==
            TentaclesAfter(HandedOnBy(ds, item, p, caller, rounds, max, k), ItemAt(item, rounds, k), p, caller,
                           rounds[k], max)
  {
    hide TentaclesAfter, ItemAt;
  }

  /** An attempt that is not overtaken, or has no successor, ends the call. */
  lemma LastAttempt(
      ds: T.Deployments, item: Option<Annotations>, p: SyncParams, caller: Option<Deployer>, rounds: seq<Attempt>,
      max: nat)
    requires rounds != [] && (|rounds| == 1 || !Overtaken(item, p, caller, rounds[0], max))
    ensures SyncOutcome(item, p, caller, rounds, max) == AttemptOutcome(item, p, caller, rounds[0], max)
    ensures TentaclesLeft(ds, item, p, caller, rounds, max) == TentaclesAfter(ds, item, p, caller, rounds[0], max)
  {
    hide Sync, AttemptOutcome, TentaclesAfter, Overtaken;
    OvertakenConflicts(item, p, caller, rounds[0], max);
    var o := AttemptOutcome(item, p, caller, rounds[0], max);
    if o.1 == Err(Conflict) {
      assert SyncOutcome(o.0, p, caller, rounds[1..], max) == (o.0, Err(Conflict));
    }
  }

  /** A call overtaken once starts over: the second attempt, if nobody writes in between, commits
      the sync of what the other client left. */
  lemma SecondAttemptCommits(
      item: Option<Annotations>, p: SyncParams, caller: Option<Deployer>, rounds: seq<Attempt>, max: nat)
    requires |rounds| >= 2 && Overtaken(item, p, caller, rounds[0], max)
    requires var left := rounds[0].writes[|rounds[0].writes| - 1].value;
             var a := rounds[1];
             a.writes == [] && !a.getFails && !a.updateFails && Sync(left, p, caller, a.env, max).Ok?
    ensures var left := rounds[0].writes[|rounds[0].writes| - 1].value;
            SyncOutcome(item, p, caller, rounds, max) ==
            (Some(Sync(left, p, caller, rounds[1].env, max).value), Sync(left, p, caller, rounds[1].env, max))
  {
    hide Sync;
    OvertakenConflicts(item, p, caller, rounds[0], max);
    SyncNeverConflicts(Last(None, rounds[0].writes), p, caller, rounds[1].env, max);
    assert rounds[1..][0] == rounds[1];
  }

  // ----- the loop of one caller, inside the protocol -----

  function AsRound(a: Attempt): Round<SyncEnv, Annotations> {
    Round(a.env, a.getFails, a.writes, a.updateFails)
  }

  function AsRounds(rounds: seq<Attempt>): seq<Round<SyncEnv, Annotations>> {
    seq(|rounds|, i requires 0 <= i < |rounds| => AsRound(rounds[i]))
  }

  lemma AttemptIsCycle(item: Option<Annotations>, req: Request, a: Attempt, max: nat)
    ensures var o := AttemptOutcome(item, req.params, req.caller, a, max);
            var c := CycleOutcome(SyncProtocol(max), item, req, AsRound(a));
            c.0 == o.0 && (c.1.Succeeded? <==> o.1.Ok?) && (c.1.Again? <==> o.1 == Err(Conflict))
  {
    hide Sync;
    if item.Some? { SyncNeverConflicts(item, req.params, req.caller, a.env, max); }
  }

  lemma {:induction false} LoopIsSolo(item: Option<Annotations>, req: Request, rounds: seq<Attempt>, max: nat)
    ensures var o := SyncOutcome(item, req.params, req.caller, rounds, max);
            var c := SoloOutcome(SyncProtocol(max), item, req, AsRounds(rounds));
            c.0 == o.0 && (c.1.Succeeded? <==> o.1.Ok?)
    decreases rounds
  {
    hide AttemptOutcome, CycleOutcome, SyncProtocol;
    if rounds != [] {
      AttemptIsCycle(item, req, rounds[0], max);
      assert AsRounds(rounds)[1..] == AsRounds(rounds[1..]) && AsRounds(rounds)[0] == AsRound(rounds[0]);
      LoopIsSolo(AttemptOutcome(item, req.params, req.caller, rounds[0], max).0, req, rounds[1..], max);
    }
  }

  /** The retry loop refines the protocol: scheduled request by request among the same foreign
      writes, the call leaves the same namespace and succeeds exactly when the loop does. */
  lemma LoopInProtocol(item: Option<Annotations>, id: nat, req: Request, rounds: seq<Attempt>, max: nat)
    requires |rounds| == 3
    ensures var p := SyncProtocol(max);
            var acts := [Begin(id, req)] + Schedule(p, item, req, id, AsRounds(rounds));
            var t: SyncState := Run(p, Initial(item), acts);
            var o := SyncOutcome(item, req.params, req.caller, rounds, max);
            t.item == o.0 && id in t.calls && t.calls[id].phase == Finished(o.1.Ok?)
  {
    hide Run, Schedule, SoloOutcome, SyncOutcome, SyncProtocol;
    ThreeAttempts(max);
    LoopIsSolo(item, req, rounds, max);
    SoloRun(SyncProtocol(max), item, id, req, AsRounds(rounds));
  }

  // ----- what one sync changes -----

  /** The annotations a sync starts its write from: mode and quota preset go there directly. */
  function Settings(ann: Annotations, p: SyncParams): Annotations {
    var moded := if p.newMode == "" then ann else ann[PermissionMode := p.newMode];
    if p.newQuotaPreset == "" then moded else moded[EnclaveQuotaPreset := p.newQuotaPreset]
  }

  lemma SettingsRead(ann: Annotations, p: SyncParams, k: Key)
    ensures Get(Settings(ann, p), k) ==
            if k == PermissionMode && p.newMode != "" then p.newMode
            else if k == EnclaveQuotaPreset && p.newQuotaPreset != "" then p.newQuotaPreset
            else Get(ann, k)
  {
  }

  lemma SyncForm(ann: Annotations, p: SyncParams, caller: Option<Deployer>, env: SyncEnv, max: nat)
    requires Sync(ann, p, caller, env, max).Ok?
    ensures var i := ReadEnclaveInfo(ann);
            && SyncInfo(i, p, max).Ok?
            && Sync(ann, p, caller, env, max).value ==
               Settings(ann, p) + WriteEnclaveAnnotations(SyncInfo(i, p, max).value.(updatedAt := env.now))
  {
    hide SyncInfo, ReadEnclaveInfo, WriteEnclaveAnnotations;
  }

  lemma SyncInfoFields(i: EnclaveInfo, p: SyncParams, max: nat)
    requires SyncInfo(i, p, max).Ok?
    ensures var j := SyncInfo(i, p, max).value;
            && (j.enclave, j.platform, j.channelId, j.createdAt) == (i.enclave, i.platform, i.channelId, i.createdAt)
            && j.owner == (if p.newOwner == "" then i.owner else p.newOwner)
            && j.ownerSub == (if p.newOwner == "" then i.ownerSub else "")
            && j.channelName == (if p.newChannelName == "" then i.channelName else p.newChannelName)
            && j.status == (if p.newStatus == "" then i.status else p.newStatus)
            && j.defaultMode == (if p.newMode == "" then i.defaultMode else p.newMode)
            && EditedMembers(i, p, max).Ok? && j.members == EditedMembers(i, p, max).value.members
  {
    hide Added, Without, M.Parse;
  }

  /** Reading the namespace back after a sync: every field holds what the parameters asked for,
      or what it held before; keys outside the enclave metadata change only for mode and quota. */
  lemma SyncEffects(ann: Annotations, p: SyncParams, caller: Option<Deployer>, env: SyncEnv, max: nat)
    requires Sync(ann, p, caller, env, max).Ok?
    ensures EditedMembers(ReadEnclaveInfo(ann), p, max).Ok?
    ensures var after := Sync(ann, p, caller, env, max).value;
            var i, j := ReadEnclaveInfo(ann), ReadEnclaveInfo(after);
            && (j.enclave, j.platform, j.channelId, j.createdAt) == (i.enclave, i.platform, i.channelId, i.createdAt)
            && j.updatedAt == env.now
            && j.owner == (if p.newOwner == "" then i.owner else p.newOwner)
            && j.ownerSub == (if p.newOwner == "" then i.ownerSub else "")
            && j.channelName == (if p.newChannelName == "" then i.channelName else p.newChannelName)
            && j.status == (if p.newStatus == "" then i.status else p.newStatus)
            && j.defaultMode == (if p.newMode == "" then i.defaultMode else p.newMode)
            && Get(after, PermissionMode) == (if p.newMode == "" then Get(ann, PermissionMode) else p.newMode)
            && Get(after, EnclaveQuotaPreset) ==
                (if p.newQuotaPreset == "" then Get(ann, EnclaveQuotaPreset) else p.newQuotaPreset)
            && (forall k :: !InfoKey(k) && k != PermissionMode && k != EnclaveQuotaPreset ==>
                Get(after, k) == Get(ann, k))
            && j.members == Members(FormatMembers(EditedMembers(i, p, max).value.members))
  {
    hide Sync, SyncInfo, EditedMembers, ReadEnclaveInfo, WriteEnclaveAnnotations, Members, FormatMembers, Settings,
      Get;
    var i := ReadEnclaveInfo(ann);
    SyncForm(ann, p, caller, env, max);
    SyncInfoFields(i, p, max);
    ReadAfterWrite(Settings(ann, p), SyncInfo(i, p, max).value.(updatedAt := env.now));
    forall k ensures Get(Settings(ann, p), k) ==
                     if k == PermissionMode && p.newMode != "" then p.newMode
                     else if k == EnclaveQuotaPreset && p.newQuotaPreset != "" then p.newQuotaPreset
                     else Get(ann, k)
    {
      SettingsRead(ann, p, k);
    }
  }

  /** Exactly which syncs are accepted: on an enclave, by someone who may, with members that
      fit, a new owner taken from the people of the enclave, valid values, and something to do. */
  lemma SyncAccepted(ann: Annotations, p: SyncParams, caller: Option<Deployer>, env: SyncEnv, max: nat)
    ensures var i := ReadEnclaveInfo(ann);
            var added := Added(i.members, i.owner, p.addMembers);
            var left := Without(added, p.removeMembers);
            Sync(ann, p, caller, env, max).Ok? <==>
              && IsEnclave(ann)
              && (IsOwnerOp(p) && IsOidc(caller) ==> caller.value.email != "" && caller.value.email == i.owner)
              && (p.addMembers != [] ==> |added| <= max)
              && (p.newOwner != "" ==>
                    p.newOwner != i.owner && (ToLower(p.newOwner) == ToLower(i.owner) || ToLower(p.newOwner) in left))
              && p.newStatus in {"", "active", "frozen"}
              && (p.newMode != "" ==> M.IsRwx(p.newMode))
              && (p.newQuotaPreset != "" ==> p.newQuotaPreset in {"small", "medium", "large"} && env.quotaOk)
              && p != SyncParams("", "", "", "", "", [], [])
  {
    hide ReadEnclaveInfo, WriteEnclaveAnnotations, Added, Without, ToLower, M.IsRwx;
    assert Added(ReadEnclaveInfo(ann).members, ReadEnclaveInfo(ann).owner, []) == ReadEnclaveInfo(ann).members by {
      AddedNone(ReadEnclaveInfo(ann).members, ReadEnclaveInfo(ann).owner);
    }
  }

  /** Why a sync is refused: the first of these, in the order in which they are noticed. */
  function SyncProblem(ann: Annotations, p: SyncParams, caller: Option<Deployer>, env: SyncEnv, max: nat)
    : Option<SyncError>
  {
    var i := ReadEnclaveInfo(ann);
    var added := Added(i.members, i.owner, p.addMembers);
    var guarded := IsOwnerOp(p) && caller.Some? && caller.value.provider != "bearer-token";
    if Get(ann, Enclave) == "" then Some(NotEnclave)
    else if guarded && caller.value.email == "" then Some(NoEmail)
    else if guarded && caller.value.email != i.owner then Some(NotOwner)
    else if p.addMembers != [] && |added| > max then Some(TooManyMembers)
    else if p.newOwner != "" && p.newOwner == i.owner then Some(AlreadyOwner)
    else if p.newOwner != "" && ToLower(p.newOwner) != ToLower(i.owner) &&
      ToLower(p.newOwner) !in Without(added, p.removeMembers) then Some(NotMember)
    else if p.newStatus !in {"", "active", "frozen"} then Some(InvalidStatus)
    else if p.newMode != "" && !M.IsRwx(p.newMode) then Some(InvalidMode)
    else if p.newQuotaPreset !in {"", "small", "medium", "large"} then Some(InvalidQuotaPreset)
    else if p.newQuotaPreset != "" && !env.quotaOk then Some(QuotaUpdateFailed)
    else if p == SyncParams("", "", "", "", "", [], []) then Some(NoUpdates)
    else None
  }

  lemma SyncRefused(ann: Annotations, p: SyncParams, caller: Option<Deployer>, env: SyncEnv, max: nat)
    ensures match Sync(ann, p, caller, env, max)
            case Ok(_) => SyncProblem(ann, p, caller, env, max) == None
            case Err(e) => SyncProblem(ann, p, caller, env, max) == Some(e)
  {
    hide ReadEnclaveInfo, WriteEnclaveAnnotations, Added, Without, ToLower, M.IsRwx;
    AddedNone(ReadEnclaveInfo(ann).members, ReadEnclaveInfo(ann).owner);
  }

  lemma AddedNone(ms: seq<string>, owner: string)
    ensures Added(ms, owner, []) == ms
  {
  }

  // ----- member lists as sets -----

  predicate NoDuplicates(ms: seq<string>) {
    forall i, j :: 0 <= i < j < |ms| ==> ms[i] != ms[j]
  }

  lemma {:induction false} AddedKeeps(ms: seq<string>, owner: string, adds: seq<string>)
    requires AllNormalized(ms) && AllNormalized(adds)
    ensures AllNormalized(Added(ms, owner, adds))
    ensures NoDuplicates(ms) && owner !in ms ==>
              NoDuplicates(Added(ms, owner, adds)) && owner !in Added(ms, owner, adds)
    decreases adds
  {
    if adds != [] {
      assert Normalized(adds[0]);
      var next := if adds[0] in ms || adds[0] == owner then ms else ms + [adds[0]];
      AddedKeeps(next, owner, adds[1..]);
      assert adds == [adds[0]] + adds[1..];
    }
  }

  lemma {:induction false} WithoutKeeps(ms: seq<string>, gone: seq<string>)
    ensures forall m :: m in Without(ms, gone) <==> m in ms && m !in gone
    ensures |Without(ms, gone)| <= |ms|
    ensures NoDuplicates(ms) ==> NoDuplicates(Without(ms, gone))
    ensures (exists m :: m in ms && m in gone) ==> |Without(ms, gone)| < |ms|
  {
    if ms != [] {
      WithoutKeeps(ms[1..], gone);
      assert ms == [ms[0]] + ms[1..];
      assert NoDuplicates(ms) ==> ms[0] !in ms[1..];
    }
  }

  lemma {:induction false} WithoutOne(ms: seq<string>, m: string)
    requires NoDuplicates(ms) && m in ms
    ensures |Without(ms, [m])| == |ms| - 1
  {
    assert ms == [ms[0]] + ms[1..];
    if ms[0] == m {
      WithoutAbsent(ms[1..], m);
    } else {
      WithoutOne(ms[1..], m);
    }
  }

  lemma {:induction false} WithoutAbsent(ms: seq<string>, m: string)
    requires m !in ms
    ensures Without(ms, [m]) == ms
  {
    if ms != [] {
      WithoutAbsent(ms[1..], m);
      assert ms == [ms[0]] + ms[1..];
    }
  }

  // ----- the member limit -----

  /** The members after additions and removals, before any transfer. */
  function Remaining(i: EnclaveInfo, p: SyncParams): seq<string> {
    Without(Added(i.members, i.owner, p.addMembers), p.removeMembers)
  }

  /** A new owner makes room for the old one only if listed exactly as written. */
  predicate RoomForOwner(i: EnclaveInfo, p: SyncParams, max: nat) {
    p.newOwner == "" || p.newOwner in Remaining(i, p) || |Remaining(i, p)| < max
  }

  lemma EditedForm(i: EnclaveInfo, p: SyncParams, max: nat)
    requires EditedMembers(i, p, max).Ok?
    ensures var j := EditedMembers(i, p, max).value;
            && j.owner == (if p.newOwner == "" then i.owner else p.newOwner)
            && j.members ==
               (if p.newOwner == "" then Remaining(i, p) else Without(Remaining(i, p), [p.newOwner]) + [i.owner])
    ensures p.newOwner != "" ==> p.newOwner != i.owner && IsParticipant(i.(members := Remaining(i, p)), p.newOwner)
    ensures |i.members| <= max ==> |Remaining(i, p)| <= max
  {
    hide IsParticipant, Without, Added;
    AddedNone(i.members, i.owner);
    WithoutKeeps(Added(i.members, i.owner, p.addMembers), p.removeMembers);
  }

  lemma EditedFits(i: EnclaveInfo, p: SyncParams, max: nat)
    requires EditedMembers(i, p, max).Ok? && |i.members| <= max
    ensures |EditedMembers(i, p, max).value.members| <= max <==> RoomForOwner(i, p, max)
  {
    hide EditedMembers, Remaining;
    EditedForm(i, p, max);
    var left := Remaining(i, p);
    WithoutKeeps(left, [p.newOwner]);
    if p.newOwner !in left { WithoutAbsent(left, p.newOwner); }
  }

  lemma {:induction false} AddedFrom(ms: seq<string>, owner: string, adds: seq<string>)
    ensures forall m :: m in Added(ms, owner, adds) <==> m in ms || (m in adds && m != owner)
    decreases adds
  {
    if adds != [] {
      AddedFrom(if adds[0] in ms || adds[0] == owner then ms else ms + [adds[0]], owner, adds[1..]);
      assert adds == [adds[0]] + adds[1..];
    }
  }

  /** Where the entries of the edited list come from. */
  lemma EditedFrom(i: EnclaveInfo, p: SyncParams, max: nat, m: string)
    requires EditedMembers(i, p, max).Ok?
    ensures m in EditedMembers(i, p, max).value.members <==>
            || (p.newOwner != "" && m == i.owner)
            || ((m in i.members || (m in p.addMembers && m != i.owner)) &&
                m !in p.removeMembers && (p.newOwner == "" || m != p.newOwner))
  {
    hide EditedMembers, Added, Without;
    EditedForm(i, p, max);
    AddedFrom(i.members, i.owner, p.addMembers);
    WithoutKeeps(Added(i.members, i.owner, p.addMembers), p.removeMembers);
    WithoutKeeps(Remaining(i, p), [p.newOwner]);
  }

  /** After a sync the member count is within the limit exactly when the edited list reads back
      so. On e-mails without commas it is enough that a new owner is listed as written or leaves
      room, and if none is blank either, that is also necessary; letter case and white space of
      added members never matter. */
  lemma SyncKeepsBound(ann: Annotations, p: SyncParams, caller: Option<Deployer>, env: SyncEnv, max: nat)
    requires Sync(ann, p, caller, env, max).Ok? && |ReadEnclaveInfo(ann).members| <= max
    ensures var i := ReadEnclaveInfo(ann);
            var bounded := |ReadEnclaveInfo(Sync(ann, p, caller, env, max).value).members| <= max;
            var brought := p.addMembers + [i.owner];
            && EditedMembers(i, p, max).Ok?
            && (bounded <==> |ReadBack(EditedMembers(i, p, max).value.members)| <= max)
            && (CommaFree(brought) && RoomForOwner(i, p, max) ==> bounded)
            && (CommaFree(brought) && NoneBlank(brought) ==> (bounded <==> RoomForOwner(i, p, max)))
  {
    hide Sync, EditedMembers, Members, FormatMembers, ReadEnclaveInfo, RoomForOwner, ReadBack, TrimSpace;
    var i := ReadEnclaveInfo(ann);
    SyncEffects(ann, p, caller, env, max);
    var edited := EditedMembers(i, p, max).value.members;
    MembersPerEntry(edited);
    EditedFits(i, p, max);
    if CommaFree(p.addMembers + [i.owner]) {
      ReadMembersNormalized(ann);
      forall m | m in edited
        ensures ',' !in m && (NoneBlank(p.addMembers + [i.owner]) ==> TrimSpace(m) != "")
      {
        EditedFrom(i, p, max, m);
        assert m in i.members || m in p.addMembers + [i.owner];
        if m in i.members { NormalizedTrims(m); }
      }
      ReadBackCount(edited);
    }
  }

  lemma NormalizedTrims(m: string)
    requires Normalized(m)
    ensures TrimSpace(m) == m && ',' !in m && m != ""
  {
    TrimSnug(m, SPACE);
  }

  function Sample(owner: string, members: seq<string>): EnclaveInfo {
    EnclaveInfo("e", owner, "", "", "", "", "active", "", "", "", members)
  }

  const ANYTIME := SyncEnv("", true)

  /** One added entry with a comma passes the limit as one and reads back as two members. */
  lemma CommaOverfills()
    ensures var ann := WriteEnclaveAnnotations(Sample("o", []));
            var p := SyncParams("", "", "", "", "", ["a,b"], []);
            && Sync(ann, p, None, ANYTIME, 1).Ok?
            && ReadEnclaveInfo(Sync(ann, p, None, ANYTIME, 1).value).members == ["a", "b"]
  {
    hide Sync, Members, FormatMembers, ReadEnclaveInfo, WriteEnclaveAnnotations, Split, ToLower, TrimSpace;
    var i := Sample("o", []);
    var ann := WriteEnclaveAnnotations(i);
    var p := SyncParams("", "", "", "", "", ["a,b"], []);
    SampleReads(i);
    assert Added([], "o", ["a,b"]) == ["a,b"];
    SyncAccepted(ann, p, None, ANYTIME, 1);
    SyncEffects(ann, p, None, ANYTIME, 1);
    EditedForm(i, p, 1);
    assert Without(["a,b"], []) == ["a,b"];
    MembersPerEntry(["a,b"]);
    PairReads();
  }

  lemma PairReads()
    ensures ReadBack(["a,b"]) == ["a", "b"]
  {
    hide Members;
    assert "a,b" == "a" + [','] + "b";
    assert FormatMembers(["a", "b"]) == "a,b";
    MembersPerEntry(["a", "b"]);
    LettersRead("a");
    LettersRead("b");
  }

  lemma LettersRead(m: string)
    requires m == "a" || m == "b"
    ensures Normalized(m) && Members(m) == [m]
  {
    hide Members;
    TrimSnug(m, SPACE);
    assert ToLower(m) == m;
    EntryAlone(m);
  }

  lemma SampleReads(i: EnclaveInfo)
    requires AllNormalized(i.members)
    ensures ReadEnclaveInfo(WriteEnclaveAnnotations(i)) == i
    ensures i.enclave != "" ==> IsEnclave(WriteEnclaveAnnotations(i))
  {
    WriteRoundTrip(map[], i);
    assert map[] + WriteEnclaveAnnotations(i) == WriteEnclaveAnnotations(i);
    InfoKeysWritten(map[], i, WriteEnclaveAnnotations(i));
  }

  // ----- invariants of runs -----

  /** Members are listed once and never include the owner, whatever the letter case of the owner. */
  predicate Proper(ann: Annotations) {
    var i := ReadEnclaveInfo(ann);
    NoDuplicates(i.members) && ToLower(i.owner) !in i.members
  }

  /** What a caller can check to keep the limit: added e-mails without commas, and a new owner in
      lower case without commas. */
  predicate BoundedRequest(p: SyncParams) {
    CommaFree(p.addMembers) && ',' !in p.newOwner && ToLower(p.newOwner) == p.newOwner
  }

  predicate Bounded(ann: Annotations, max: nat) {
    var i := ReadEnclaveInfo(ann);
    ',' !in i.owner && ToLower(i.owner) == i.owner && |i.members| <= max
  }

  /** Every e-mail a request brings in is normalized. */
  predicate NormalizedRequest(p: SyncParams) {
    AllNormalized(p.addMembers) && (p.newOwner != "" ==> Normalized(p.newOwner))
  }

  predicate ProperlyOwned(ann: Annotations) {
    Normalized(ReadEnclaveInfo(ann).owner) && Proper(ann)
  }

  lemma ReadMembersNormalized(ann: Annotations)
    ensures AllNormalized(ReadEnclaveInfo(ann).members)
  {
    MembersNormalized(Get(ann, EnclaveMembers));
  }

  lemma NormalizedIsLower(m: string)
    ensures Normalized(m) ==> ToLower(m) == m
  {
  }

  /** One sync keeps the limit under the caller's test. */
  lemma SyncStaysBounded(ann: Annotations, p: SyncParams, caller: Option<Deployer>, env: SyncEnv, max: nat)
    requires Sync(ann, p, caller, env, max).Ok?
    requires BoundedRequest(p) && Bounded(ann, max)
    ensures Bounded(Sync(ann, p, caller, env, max).value, max)
  {
    hide Sync, EditedMembers, Members, FormatMembers, ReadEnclaveInfo, ToLower, Remaining;
    var i := ReadEnclaveInfo(ann);
    SyncEffects(ann, p, caller, env, max);
    EditedForm(i, p, max);
    SyncKeepsBound(ann, p, caller, env, max);
    assert CommaFree(p.addMembers + [i.owner]);
  }

  lemma EditKeepsProper(i: EnclaveInfo, p: SyncParams, max: nat)
    requires AllNormalized(i.members) && Normalized(i.owner) && NoDuplicates(i.members) && i.owner !in i.members
    requires NormalizedRequest(p) && EditedMembers(i, p, max).Ok?
    ensures var j := EditedMembers(i, p, max).value;
            AllNormalized(j.members) && Normalized(j.owner) && NoDuplicates(j.members) && j.owner !in j.members
  {
    hide EditedMembers, Normalized;
    EditedForm(i, p, max);
    AddedKeeps(i.members, i.owner, p.addMembers);
    WithoutKeeps(Added(i.members, i.owner, p.addMembers), p.removeMembers);
    WithoutKeeps(Remaining(i, p), [p.newOwner]);
  }

  /** One sync with normalized e-mails keeps a proper member list proper. */
  lemma SyncStaysProper(ann: Annotations, p: SyncParams, caller: Option<Deployer>, env: SyncEnv, max: nat)
    requires Sync(ann, p, caller, env, max).Ok?
    requires NormalizedRequest(p) && ProperlyOwned(ann)
    ensures ProperlyOwned(Sync(ann, p, caller, env, max).value)
  {
    hide Sync, EditedMembers, Members, FormatMembers, ReadEnclaveInfo, Normalized, ToLower;
    var i := ReadEnclaveInfo(ann);
    ReadMembersNormalized(ann);
    NormalizedIsLower(i.owner);
    SyncEffects(ann, p, caller, env, max);
    EditKeepsProper(i, p, max);
    EditedForm(i, p, max);
    MembersRoundTrip(EditedMembers(i, p, max).value.members);
    NormalizedIsLower(EditedMembers(i, p, max).value.owner);
  }

  /** Requests pass the test `ok`, and other clients leave the namespace absent or satisfying `inv`. */
  ghost predicate RunOf(acts: seq<SyncAction>, inv: Annotations -> bool, ok: SyncParams -> bool) {
    forall a <- acts ::
      (a.Begin? ==> ok(a.req.params)) && (a.Other? && a.item.Some? ==> inv(a.item.value))
  }

  /** What every accepted sync keeps, every interleaved run keeps. */
  lemma {:induction false} RunsKeep(init: Annotations, acts: seq<SyncAction>, max: nat, inv: Annotations -> bool,
      ok: SyncParams -> bool)
    requires inv(init) && RunOf(acts, inv, ok)
    requires forall ann, p, caller, env :: inv(ann) && ok(p) && Sync(ann, p, caller, env, max).Ok? ==>
               inv(Sync(ann, p, caller, env, max).value)
    ensures var s: SyncState := Run(SyncProtocol(max), Initial(Some(init)), acts);
            && (s.item.Some? ==> inv(s.item.value))
            && (forall id <- s.calls :: ok(s.calls[id].req.params))
    decreases acts
  {
    hide Sync;
    if acts != [] {
      var before := acts[..|acts| - 1];
      var a := acts[|acts| - 1];
      assert a in acts && forall b <- before :: b in acts;
      RunsKeep(init, before, max, inv, ok);
      var p := SyncProtocol(max);
      var s: SyncState := Run(p, Initial(Some(init)), before);
      RunKeeps(p, Some(init), before);
      if a.Commit? && a.id in s.calls && s.calls[a.id].phase.Holding? {
        assert CallOk(p, s, a.id);
        assert ok(s.calls[a.id].req.params);
      }
    }
  }

  /** Over every interleaved run of requests that pass the caller's test, the member count stays
      within the limit. */
  lemma RunsKeepBound(init: Annotations, acts: seq<SyncAction>, max: nat)
    requires Bounded(init, max) && RunOf(acts, ann => Bounded(ann, max), BoundedRequest)
    ensures var s: SyncState := Run(SyncProtocol(max), Initial(Some(init)), acts);
            s.item.Some? ==> Bounded(s.item.value, max)
  {
    hide Sync, Bounded, BoundedRequest, Run;
    forall ann, p, caller, env | Bounded(ann, max) && BoundedRequest(p) && Sync(ann, p, caller, env, max).Ok?
      ensures Bounded(Sync(ann, p, caller, env, max).value, max)
    {
      SyncStaysBounded(ann, p, caller, env, max);
    }
    RunsKeep(init, acts, max, ann => Bounded(ann, max), BoundedRequest);
  }

  /** Over every interleaved run of normalized requests, members stay distinct and other than
      the owner. */
  lemma RunsKeepProper(init: Annotations, acts: seq<SyncAction>, max: nat)
    requires ProperlyOwned(init) && RunOf(acts, ProperlyOwned, NormalizedRequest)
    ensures var s: SyncState := Run(SyncProtocol(max), Initial(Some(init)), acts);
            s.item.Some? ==> ProperlyOwned(s.item.value)
  {
    hide Sync, ProperlyOwned, NormalizedRequest, Run;
    forall ann, p, caller, env | ProperlyOwned(ann) && NormalizedRequest(p) && Sync(ann, p, caller, env, max).Ok?
      ensures ProperlyOwned(Sync(ann, p, caller, env, max).value)
    {
      SyncStaysProper(ann, p, caller, env, max);
    }
    RunsKeep(init, acts, max, ProperlyOwned, NormalizedRequest);
  }

  // ----- ownership transfer -----

  predicate PureTransfer(p: SyncParams) {
    p.newOwner != "" && p == SyncParams(p.newOwner, "", "", "", "", [], [])
  }

  lemma TransferEdits(i: EnclaveInfo, p: SyncParams, max: nat)
    requires PureTransfer(p) && EditedMembers(i, p, max).Ok?
    ensures EditedMembers(i, p, max).value.members == Without(i.members, [p.newOwner]) + [i.owner]
    ensures IsParticipant(i, p.newOwner)
  {
    hide Without, IsParticipant;
    WithoutNone(i.members);
  }

  lemma TransferredMembers(ann: Annotations, p: SyncParams, caller: Option<Deployer>, env: SyncEnv, max: nat)
    requires Sync(ann, p, caller, env, max).Ok? && PureTransfer(p)
    requires CsvSafe(ReadEnclaveInfo(ann).owner)
    ensures var i := ReadEnclaveInfo(ann);
            ReadEnclaveInfo(Sync(ann, p, caller, env, max).value).members ==
            Without(i.members, [p.newOwner]) + [ToLower(i.owner)]
  {
    hide Sync, Members, FormatMembers, ReadEnclaveInfo, ToLower, Snug, EditedMembers, Without;
    var i := ReadEnclaveInfo(ann);
    var left := Without(i.members, [p.newOwner]);
    ReadMembersNormalized(ann);
    WithoutKeeps(i.members, [p.newOwner]);
    SyncEffects(ann, p, caller, env, max);
    TransferEdits(i, p, max);
    MembersLowered(left + [i.owner]);
    LowerAllSnoc(left, i.owner);
    KeepSafe(left);
  }

  lemma {:induction false} LowerAllSnoc(ms: seq<string>, m: string)
    ensures LowerAll(ms + [m]) == LowerAll(ms) + [ToLower(m)]
  {
    if ms != [] {
      assert (ms + [m])[1..] == ms[1..] + [m];
      LowerAllSnoc(ms[1..], m);
    }
  }

  /** A transfer keeps a proper member list proper exactly when the new owner is written as
      one of the listed members; then owner and members together are the same people, and the
      count is unchanged. A case variant, which the participant check lets through, stays
      listed as a member next to being the owner. */
  lemma TransferConserves(ann: Annotations, p: SyncParams, caller: Option<Deployer>, env: SyncEnv, max: nat)
    requires Sync(ann, p, caller, env, max).Ok? && PureTransfer(p)
    requires CsvSafe(ReadEnclaveInfo(ann).owner) && Proper(ann)
    ensures var i := ReadEnclaveInfo(ann);
            var after := Sync(ann, p, caller, env, max).value;
            var j := ReadEnclaveInfo(after);
            && (Proper(after) <==> p.newOwner in i.members)
            && (p.newOwner in i.members ==>
                  (set m | m in j.members) + {j.owner} == (set m | m in i.members) + {ToLower(i.owner)} &&
                  |j.members| == |i.members|)
            && (p.newOwner !in i.members ==> |j.members| == |i.members| + 1)
  {
    hide Sync, EditedMembers, Without, Members, FormatMembers, ReadEnclaveInfo, ToLower, Snug, SPACE;
    var i := ReadEnclaveInfo(ann);
    ReadMembersNormalized(ann);
    TransferredMembers(ann, p, caller, env, max);
    SyncEffects(ann, p, caller, env, max);
    TransferEdits(i, p, max);
    WithoutKeeps(i.members, [p.newOwner]);
    if p.newOwner in i.members {
      assert Normalized(p.newOwner);
      WithoutOne(i.members, p.newOwner);
    } else {
      WithoutAbsent(i.members, p.newOwner);
    }
  }

  /** A transfer to a listed member in another letter case: accepted, from a proper list, to one
      that is neither proper nor within the limit of one member. */
  lemma VariantTransfer()
    ensures var ann := WriteEnclaveAnnotations(Sample("a", ["b"]));
            var p := SyncParams("B", "", "", "", "", [], []);
            && Proper(ann) && Sync(ann, p, None, ANYTIME, 1).Ok?
            && var after := Sync(ann, p, None, ANYTIME, 1).value;
               ReadEnclaveInfo(after).owner == "B" && ReadEnclaveInfo(after).members == ["b", "a"] && !Proper(after)
  {
    hide Sync, Members, FormatMembers, ReadEnclaveInfo, WriteEnclaveAnnotations, ToLower;
    var i := Sample("a", ["b"]);
    var ann := WriteEnclaveAnnotations(i);
    var p := SyncParams("B", "", "", "", "", [], []);
    LettersRead("a");
    LettersRead("b");
    LowerB();
    SampleReads(i);
    assert Added(["b"], "a", []) == ["b"] && Without(["b"], []) == ["b"] && Without(["b"], ["B"]) == ["b"];
    SyncAccepted(ann, p, None, ANYTIME, 1);
    SyncEffects(ann, p, None, ANYTIME, 1);
    TransferredMembers(ann, p, None, ANYTIME, 1);
    TransferConserves(ann, p, None, ANYTIME, 1);
  }

  lemma LowerB()
    ensures ToLower("B") == "b"
  {
  }
}
