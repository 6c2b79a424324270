/** `enclave_sync` (`pkg/tools/enclave.go`): the pure change one cycle makes to the namespace
    annotations, and the methods that compute it and write it back. */
module EnclaveSync {
  import opened Wrappers
  import opened Text
  import opened Annotations
  import opened Caller
  import opened EnclaveAnnotations
  import M = Mode
  import T = Tentacles

  datatype SyncParams = SyncParams(
    newOwner: string, newChannelName: string, newStatus: string, newMode: string,
    newQuotaPreset: string, addMembers: seq<string>, removeMembers: seq<string>)

  /** What the clock and the quota API answer during one attempt. */
  datatype SyncEnv = SyncEnv(now: string, quotaOk: bool)

  datatype SyncError =
    | GetFailed | NotEnclave | NoEmail | NotOwner | TooManyMembers | AlreadyOwner | NotMember
    | InvalidStatus | InvalidMode | InvalidQuotaPreset | QuotaUpdateFailed | NoUpdates | UpdateFailed | Conflict

  const MAX_SYNC_RETRIES := 3

  predicate ValidQuotaPreset(preset: string) {
    preset in {"small", "medium", "large"}
  }

  predicate IsOwnerOp(p: SyncParams) {
    p.newOwner != "" || p.addMembers != [] || p.removeMembers != [] || p.newStatus != "" ||
    p.newMode != "" || p.newQuotaPreset != ""
  }

  predicate IsParticipant(info: EnclaveInfo, email: string) {
    ToLower(info.owner) == ToLower(email) || ToLower(email) in info.members
  }

  // ----- the pure transformation -----

  function Added(members: seq<string>, owner: string, adds: seq<string>): seq<string>
    decreases adds
  {
    if adds == [] then members
    else Added(if adds[0] in members || adds[0] == owner then members else members + [adds[0]], owner, adds[1..])
  }

  function Without(members: seq<string>, gone: seq<string>): seq<string> {
    if members == [] then []
    else (if members[0] in gone then [] else [members[0]]) + Without(members[1..], gone)
  }

  function WithAdditions(info: EnclaveInfo, adds: seq<string>, max: nat): Result<EnclaveInfo, SyncError> {
    if adds == [] then Ok(info)
    else
      var members := Added(info.members, info.owner, adds);
      if ValidMembers(members, max) then Ok(info.(members := members)) else Err(TooManyMembers)
  }

  function WithOwner(info: EnclaveInfo, newOwner: string): Result<EnclaveInfo, SyncError> {
    if newOwner == "" then Ok(info)
    else if newOwner == info.owner then Err(AlreadyOwner)
    else if !IsParticipant(info, newOwner) then Err(NotMember)
    else Ok(info.(owner := newOwner, ownerSub := "",
                  members := Without(info.members, [newOwner]) + [info.owner]))
  }

  function WithStatus(info: EnclaveInfo, status: string): Result<EnclaveInfo, SyncError> {
    if status == "" then Ok(info)
    else if status in {"active", "frozen"} then Ok(info.(status := status))
    else Err(InvalidStatus)
  }

  function EditedMembers(info: EnclaveInfo, p: SyncParams, max: nat): Result<EnclaveInfo, SyncError> {
    var added :- WithAdditions(info, p.addMembers, max);
    WithOwner(added.(members := Without(added.members, p.removeMembers)), p.newOwner)
  }

  function SyncInfo(info: EnclaveInfo, p: SyncParams, max: nat): Result<EnclaveInfo, SyncError> {
    var owned :- EditedMembers(info, p, max);
    var named := if p.newChannelName == "" then owned else owned.(channelName := p.newChannelName);
    var withStatus :- WithStatus(named, p.newStatus);
    if p.newMode == "" then Ok(withStatus)
    else if M.Parse(p.newMode).None? then Err(InvalidMode)
    else Ok(withStatus.(defaultMode := p.newMode))
  }

  function Authorize(info: EnclaveInfo, p: SyncParams, caller: Option<Deployer>): Option<SyncError> {
    if IsOwnerOp(p) && IsOidc(caller) then
      if caller.value.email == "" then Some(NoEmail)
      else if caller.value.email != info.owner then Some(NotOwner)
      else None
    else None
  }

  /** The annotations one cycle writes, computed from the ones it read. */
  function Sync(ann: Annotations, p: SyncParams, caller: Option<Deployer>, env: SyncEnv, max: nat)
    : Result<Annotations, SyncError>
  {
    if !IsEnclave(ann) then Err(NotEnclave)
    else
      var info := ReadEnclaveInfo(ann);
      var denied := Authorize(info, p, caller);
      if denied.Some? then Err(denied.value)
      else
        var synced :- SyncInfo(info, p, max);
        if p.newQuotaPreset != "" && !ValidQuotaPreset(p.newQuotaPreset) then Err(InvalidQuotaPreset)
        else if p.newQuotaPreset != "" && !env.quotaOk then Err(QuotaUpdateFailed)
        else if !IsOwnerOp(p) && p.newChannelName == "" then Err(NoUpdates)
        else
          var moded := if p.newMode == "" then ann else ann[PermissionMode := p.newMode];
          var quoted := if p.newQuotaPreset == "" then moded else moded[EnclaveQuotaPreset := p.newQuotaPreset];
          Ok(quoted + WriteEnclaveAnnotations(synced.(updatedAt := env.now)))
  }

  // ----- the methods -----

  lemma {:induction false} AddedSnoc(members: seq<string>, owner: string, adds: seq<string>, m: string)
    ensures Added(members, owner, adds + [m]) ==
            var r := Added(members, owner, adds); if m in r || m == owner then r else r + [m]
    decreases adds
  {
    if adds != [] {
      assert (adds + [m])[1..] == adds[1..] + [m];
      AddedSnoc(if adds[0] in members || adds[0] == owner then members else members + [adds[0]], owner, adds[1..], m);
    }
  }

  method AddMembers(members: seq<string>, owner: string, adds: seq<string>) returns (r: seq<string>)
    ensures r == Added(members, owner, adds)
  {
    var existing := set m | m in members;
    r := members;
    for i := 0 to |adds|
      invariant r == Added(members, owner, adds[..i])
      invariant existing == set m | m in r
    {
      AddedSnoc(members, owner, adds[..i], adds[i]);
      assert adds[..i + 1] == adds[..i] + [adds[i]];
      if adds[i] !in existing && adds[i] != owner {
        r := r + [adds[i]];
        existing := existing + {adds[i]};
      }
    }
    assert adds[..|adds|] == adds;
  }

  lemma {:induction false} WithoutSnoc(members: seq<string>, gone: seq<string>, m: string)
    ensures Without(members + [m], gone) == Without(members, gone) + if m in gone then [] else [m]
  {
    if members != [] {
      assert (members + [m])[1..] == members[1..] + [m];
      WithoutSnoc(members[1..], gone, m);
    }
  }

  method FilterMembers(members: seq<string>, gone: seq<string>) returns (r: seq<string>)
    ensures r == Without(members, gone)
  {
    var removeSet := set m | m in gone;
    r := [];
    for i := 0 to |members|
      invariant r == Without(members[..i], gone)
    {
      WithoutSnoc(members[..i], gone, members[i]);
      assert members[..i + 1] == members[..i] + [members[i]];
      if members[i] !in removeSet {
        r := r + [members[i]];
      }
    }
    assert members[..|members|] == members;
  }

  lemma {:induction false} WithoutNone(members: seq<string>)
    ensures Without(members, []) == members
  {
    if members != [] {
      WithoutNone(members[1..]);
    }
  }

  /** The namespace object of one enclave at the API server, with compare-and-set on its version. */
  class NamespaceApi {
    var item: Option<Annotations>
    var version: nat

    constructor (item: Option<Annotations>)
      ensures this.item == item && version == 0
    {
      this.item := item;
      version := 0;
    }

    /** Another client writes (or deletes) the namespace. */
    method Interfere(writes: seq<Option<Annotations>>)
      modifies this
      ensures item == if writes == [] then old(item) else writes[|writes| - 1]
      ensures version == old(version) + |writes|
    {
      for i := 0 to |writes|
        invariant item == if i == 0 then old(item) else writes[i - 1]
        invariant version == old(version) + i
      {
        item := writes[i];
        version := version + 1;
      }
    }

    method Update(ann: Annotations, seen: nat) returns (err: Option<SyncError>)
      modifies this
      ensures err.None? <==> old(item).Some? && old(version) == seen
      ensures err.Some? ==> err.value == if old(item).Some? then Conflict else UpdateFailed
      ensures err.None? ==> item == Some(ann) && version == seen + 1
      ensures err.Some? ==> item == old(item) && version == old(version)
    {
      if item.None? {
        return Some(UpdateFailed);
      }
      if version != seen {
        return Some(Conflict);
      }
      item := Some(ann);
      version := version + 1;
      return None;
    }
  }

  /** One attempt's circumstances: which requests fail, what the clock and the quota API answer,
      and what other clients write to the namespace between the read and the write. */
  datatype Attempt = Attempt(
    env: SyncEnv, getFails: bool, listFails: bool, tentacleFails: set<string>,
    writes: seq<Option<Annotations>>, updateFails: bool)

  function Last(item: Option<Annotations>, writes: seq<Option<Annotations>>): Option<Annotations> {
    if writes == [] then item else writes[|writes| - 1]
  }

  /** What one attempt does to the namespace, and the annotations it reports. */
  function AttemptOutcome(item: Option<Annotations>, p: SyncParams, caller: Option<Deployer>, a: Attempt, max: nat)
    : (Option<Annotations>, Result<Annotations, SyncError>)
  {
    if item.None? || a.getFails then (Last(item, a.writes), Err(GetFailed))
    else
      var draft := Sync(item.value, p, caller, a.env, max);
      if draft.Err? then (Last(item, a.writes), draft)
      else if a.updateFails then (Last(item, a.writes), Err(UpdateFailed))
      else if a.writes == [] then (Some(draft.value), draft)
      else (Last(item, a.writes), Err(if Last(item, a.writes).None? then UpdateFailed else Conflict))
  }

  /** Whether an attempt gets as far as removing members, whatever becomes of it afterwards. */
  predicate RemovesMembers(ann: Annotations, p: SyncParams, caller: Option<Deployer>, max: nat) {
    var info := ReadEnclaveInfo(ann);
    && p.removeMembers != [] && IsEnclave(ann) && Authorize(info, p, caller).None?
    && WithAdditions(info, p.addMembers, max).Ok?
  }

  /** The tentacles after one attempt: those of removed members go to the owner that was read. */
  function TentaclesAfter(ds: T.Deployments, item: Option<Annotations>, p: SyncParams, caller: Option<Deployer>,
                          a: Attempt, max: nat): T.Deployments
  {
    if item.Some? && !a.getFails && !a.listFails && RemovesMembers(item.value, p, caller, max) then
      T.Transferred(ds, T.LowerSet(p.removeMembers), Get(item.value, EnclaveOwner), a.tentacleFails)
    else ds
  }

  /** The deployments after the member edits of one attempt. */
  function TentaclesEdited(ds: T.Deployments, info: EnclaveInfo, p: SyncParams, a: Attempt, max: nat): T.Deployments {
    if p.removeMembers != [] && WithAdditions(info, p.addMembers, max).Ok? && !a.listFails then
      T.Transferred(ds, T.LowerSet(p.removeMembers), info.owner, a.tentacleFails)
    else ds
  }

  // ----- the methods of one attempt -----

  /** The member and ownership edits of `attemptEnclaveSync`, on the local copy of the info. */
  method EditMembers(api: T.DeploymentApi, info0: EnclaveInfo, p: SyncParams, a: Attempt, max: nat)
    returns (r: Result<EnclaveInfo, SyncError>)
    modifies api
    ensures r == EditedMembers(info0, p, max)
    ensures api.deps == TentaclesEdited(old(api.deps), info0, p, a, max)
  {
    hide T.Transferred, T.LowerSet, T.ReportsExactly, IsParticipant;
    var info := info0;
    if p.addMembers != [] {
      var members := AddMembers(info.members, info.owner, p.addMembers);
      info := info.(members := members);
      if !ValidMembers(info.members, max) {
        return Err(TooManyMembers);
      }
    }
    WithoutNone(info.members);
    if p.removeMembers != [] {
      var filtered := FilterMembers(info.members, p.removeMembers);
      info := info.(members := filtered);
      // A failure is logged and does not fail the sync.
      var transfers := api.TransferOrphanedTentacles(p.removeMembers, info.owner, a.listFails, a.tentacleFails);
    }
    if p.newOwner != "" {
      if p.newOwner == info.owner {
        return Err(AlreadyOwner);
      }
      if !IsParticipant(info, p.newOwner) {
        return Err(NotMember);
      }
      var newMembers := FilterMembers(info.members, [p.newOwner]);
      newMembers := newMembers + [info.owner];
      info := info.(owner := p.newOwner, ownerSub := "", members := newMembers);
    }
    return Ok(info);
  }

  /** The remaining edits of the local copy: channel, status and mode. */
  method EditInfo(api: T.DeploymentApi, info0: EnclaveInfo, p: SyncParams, a: Attempt, max: nat)
    returns (r: Result<EnclaveInfo, SyncError>)
    modifies api
    ensures r == SyncInfo(info0, p, max)
    ensures api.deps == TentaclesEdited(old(api.deps), info0, p, a, max)
  {
    hide EditedMembers, M.Parse, TentaclesEdited;
    var edited := EditMembers(api, info0, p, a, max);
    if edited.Err? {
      return Err(edited.error);
    }
    var info := edited.value;
    if p.newChannelName != "" {
      info := info.(channelName := p.newChannelName);
    }
    if p.newStatus != "" {
      if p.newStatus !in {"active", "frozen"} {
        return Err(InvalidStatus);
      }
      info := info.(status := p.newStatus);
    }
    if p.newMode != "" {
      var mode := M.ParseMode(p.newMode);
      if mode.None? {
        return Err(InvalidMode);
      }
      info := info.(defaultMode := p.newMode);
    }
    return Ok(info);
  }

  /** The body of one cycle: edits the info field by field, then overwrites the annotations. */
  method ComputeSync(
      api: T.DeploymentApi, ann0: Annotations, p: SyncParams, caller: Option<Deployer>, a: Attempt, max: nat)
    returns (r: Result<Annotations, SyncError>)
    requires !a.getFails
    modifies api
    ensures r == Sync(ann0, p, caller, a.env, max)
    ensures api.deps == TentaclesAfter(old(api.deps), Some(ann0), p, caller, a, max)
  {
    hide WriteEnclaveAnnotations, SyncInfo, IsEnclave, ValidQuotaPreset, WithAdditions, Members, T.Transferred,
        T.LowerSet;
    var ann := ann0;
    if !IsEnclave(ann) {
      return Err(NotEnclave);
    }
    var info := ReadEnclaveInfo(ann);
    if IsOwnerOp(p) && IsOidc(caller) {
      if caller.value.email == "" {
        return Err(NoEmail);
      }
      if caller.value.email != info.owner {
        return Err(NotOwner);
      }
    }
    var updated := p.addMembers != [] || p.removeMembers != [] || p.newOwner != "" ||
      p.newChannelName != "" || p.newStatus != "";
    var edited := EditInfo(api, info, p, a, max);
    if edited.Err? {
      return Err(edited.error);
    }
    info := edited.value;
    if p.newMode != "" {
      ann := ann[PermissionMode := p.newMode];
      updated := true;
    }
    if p.newQuotaPreset != "" {
      if !ValidQuotaPreset(p.newQuotaPreset) {
        return Err(InvalidQuotaPreset);
      }
      if !a.env.quotaOk {
        return Err(QuotaUpdateFailed);
      }
      ann := ann[EnclaveQuotaPreset := p.newQuotaPreset];
      updated := true;
    }
    if !updated {
      return Err(NoUpdates);
    }
    info := info.(updatedAt := a.env.now);
    return Ok(ann + WriteEnclaveAnnotations(info));
  }

  /** `attemptEnclaveSync`: read, compute, write under the version read. */
  method AttemptEnclaveSync(
      api: NamespaceApi, tentacles: T.DeploymentApi, p: SyncParams, caller: Option<Deployer>, a: Attempt, max: nat)
    returns (r: Result<Annotations, SyncError>)
    modifies api, tentacles
    ensures (api.item, r) == AttemptOutcome(old(api.item), p, caller, a, max)
    ensures tentacles.deps == TentaclesAfter(old(tentacles.deps), old(api.item), p, caller, a, max)
    ensures r.Ok? ==> api.version == old(api.version) + 1
  {
    hide Sync, RemovesMembers, T.Transferred;
    var ns := api.item;
    var seen := api.version;
    api.Interfere(a.writes);
    if ns.None? || a.getFails {
      return Err(GetFailed);
    }
    r := ComputeSync(tentacles, ns.value, p, caller, a, max);
    if r.Err? {
      return;
    }
    if a.updateFails {
      return Err(UpdateFailed);
    }
    var err := api.Update(r.value, seen);
    if err.Some? {
      return Err(err.value);
    }
  }

  // ----- retrying -----

  /** Retrying while attempts end in a conflict, over the circumstances of each attempt. */
  function SyncOutcome(
      item: Option<Annotations>, p: SyncParams, caller: Option<Deployer>, rounds: seq<Attempt>, max: nat)
    : (Option<Annotations>, Result<Annotations, SyncError>)
    decreases rounds
  {
    if rounds == [] then (item, Err(Conflict))
    else
      var o := AttemptOutcome(item, p, caller, rounds[0], max);
      if o.1 == Err(Conflict) then SyncOutcome(o.0, p, caller, rounds[1..], max) else o
  }

  /** The tentacles after all attempts of a call. */
  function TentaclesLeft(ds: T.Deployments, item: Option<Annotations>, p: SyncParams, caller: Option<Deployer>,
                         rounds: seq<Attempt>, max: nat): T.Deployments
    decreases rounds
  {
    if rounds == [] then ds
    else
      var o := AttemptOutcome(item, p, caller, rounds[0], max);
      var d := TentaclesAfter(ds, item, p, caller, rounds[0], max);
      if o.1 == Err(Conflict) then TentaclesLeft(d, o.0, p, caller, rounds[1..], max) else d
  }

  /** `handleEnclaveSync`: at most three attempts, started over only after a conflict. */
  method HandleEnclaveSync(
      api: NamespaceApi, tentacles: T.DeploymentApi, p: SyncParams, caller: Option<Deployer>,
      rounds: seq<Attempt>, max: nat)
    returns (r: Result<Annotations, SyncError>)
    requires |rounds| == 3
    modifies api, tentacles
    ensures (api.item, r) == SyncOutcome(old(api.item), p, caller, rounds, max)
    ensures tentacles.deps == TentaclesLeft(old(tentacles.deps), old(api.item), p, caller, rounds, max)
  {
    hide AttemptOutcome, TentaclesAfter;
    var attempt := 0;
    while attempt < MAX_SYNC_RETRIES
      invariant 0 <= attempt <= MAX_SYNC_RETRIES
      invariant SyncOutcome(old(api.item), p, caller, rounds, max) ==
                SyncOutcome(api.item, p, caller, rounds[attempt..], max)
      invariant TentaclesLeft(old(tentacles.deps), old(api.item), p, caller, rounds, max) ==
                TentaclesLeft(tentacles.deps, api.item, p, caller, rounds[attempt..], max)
    {
      r := AttemptEnclaveSync(api, tentacles, p, caller, rounds[attempt], max);
      assert rounds[attempt..][1..] == rounds[attempt + 1..];
      if r != Err(Conflict) {
        return;
      }
      attempt := attempt + 1;
    }
    return Err(Conflict);
  }
}
