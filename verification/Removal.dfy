/** Removing a member through `enclave_sync`, across the three places that know the member: the
    member list of the namespace, the owners of Deployments, and the permission evaluator. */
module Removal {
  import opened Wrappers
  import opened Text
  import opened Annotations
  import opened Caller
  import opened EnclaveAnnotations
  import opened EnclaveSync
  import E = Evaluator
  import M = Mode
  import R = EnclaveRuns
  import T = Tentacles

  // ----- the member list -----

  /** Whether an entry of the old list or of the additions is in the new list. */
  predicate EntryStays(i: EnclaveInfo, p: SyncParams, x: string) {
    && (x in i.members || (x in p.addMembers && x != i.owner))
    && x !in p.removeMembers && (p.newOwner == "" || x != p.newOwner)
  }

  /** Whether the member list after the sync reads back with `m`. */
  predicate StaysListed(i: EnclaveInfo, p: SyncParams, m: string) {
    || (p.newOwner != "" && m in Members(i.owner))
    || exists x <- i.members + p.addMembers :: EntryStays(i, p, x) && m in Members(x)
  }

  /** Membership after any accepted sync, for every spelling of the entries involved. */
  lemma MemberAfter(ann: Annotations, p: SyncParams, caller: Option<Deployer>, env: SyncEnv, max: nat, email: string)
    requires Sync(ann, p, caller, env, max).Ok?
    ensures E.IsMember(email, Sync(ann, p, caller, env, max).value) <==>
            StaysListed(ReadEnclaveInfo(ann), p, ToLower(email))
  {
    hide Sync, EditedMembers, Members, FormatMembers, ToLower, ReadBack;
    var i := ReadEnclaveInfo(ann);
    var m := ToLower(email);
    R.SyncEffects(ann, p, caller, env, max);
    var edited := EditedMembers(i, p, max).value.members;
    MembersPerEntry(edited);
    ReadBackMembers(edited, m);
    forall x ensures x in edited <==> (p.newOwner != "" && x == i.owner) || EntryStays(i, p, x) {
      R.EditedFrom(i, p, max, x);
    }
    assert forall x :: EntryStays(i, p, x) ==> x in i.members + p.addMembers;
  }

  // ----- standing -----

  /** Neither owner nor member of the enclave, nor owner of the tentacle. */
  predicate NoStanding(email: string, enclaveAnn: Annotations, tentacleAnn: Annotations) {
    && !E.IsOwnerOf(email, Get(enclaveAnn, EnclaveOwner))
    && E.EnclaveClass(email, enclaveAnn) == M.Other
    && E.TentacleClass(email, enclaveAnn, tentacleAnn) == M.Other
  }

  predicate HandedOn(a: Attempt, n: string) {
    !a.listFails && n !in a.tentacleFails
  }

  lemma OwnerAfter(
      ds: T.Deployments, ann: Annotations, p: SyncParams, caller: Option<Deployer>, a: Attempt, max: nat, n: string)
    requires Sync(ann, p, caller, a.env, max).Ok? && !a.getFails
    requires n in ds && ds[n].ann.Some?
    ensures var after := TentaclesAfter(ds, Some(ann), p, caller, a, max);
            && n in after && after[n].ann.Some?
            && Get(after[n].ann.value, Owner) ==
               (if T.Orphan(ds[n], T.LowerSet(p.removeMembers)) && HandedOn(a, n) then Get(ann, EnclaveOwner)
                else Get(ds[n].ann.value, Owner))
            && Get(after[n].ann.value, PermissionMode) == Get(ds[n].ann.value, PermissionMode)
  {
    hide WriteEnclaveAnnotations, Members, ToLower, T.LowerSet, Added, Without, M.Parse;
    var removed := T.LowerSet(p.removeMembers);
    T.TransferHandsOver(ds, removed, Get(ann, EnclaveOwner), a.tentacleFails, n);
    T.TransferFrame(ds, removed, Get(ann, EnclaveOwner), a.tentacleFails, n, PermissionMode);
    if p.removeMembers == [] {
      NobodyRemoved();
    } else {
      AcceptedRemoves(ann, p, caller, a, max);
    }
  }

  lemma NobodyRemoved()
    ensures T.LowerSet([]) == {}
  {
  }

  /** Exactly when a removed e-mail has no standing left on a tentacle, after any accepted sync: it
      is not the owner afterwards, the list does not read back with it, its own tentacle was
      handed on, and none was handed on to it. */
  lemma RemovedLosesStanding(
      ds: T.Deployments, ann: Annotations, p: SyncParams, caller: Option<Deployer>, a: Attempt, max: nat,
      email: string, n: string)
    requires Sync(ann, p, caller, a.env, max).Ok? && email in p.removeMembers && !a.getFails
    requires n in ds && ds[n].ann.Some?
    ensures var after := Sync(ann, p, caller, a.env, max).value;
            var left := TentaclesAfter(ds, Some(ann), p, caller, a, max);
            var owner := Get(ann, EnclaveOwner);
            && n in left && left[n].ann.Some?
            && (NoStanding(email, after, left[n].ann.value) <==>
                  && !E.IsOwnerOf(email, if p.newOwner == "" then owner else p.newOwner)
                  && !StaysListed(ReadEnclaveInfo(ann), p, ToLower(email))
                  && (E.IsOwnerOf(email, Get(ds[n].ann.value, Owner)) ==> ds[n].managed && HandedOn(a, n))
                  && (T.Orphan(ds[n], T.LowerSet(p.removeMembers)) && HandedOn(a, n) ==> !E.IsOwnerOf(email, owner)))
  {
    hide Sync, Members, FormatMembers, StaysListed, TentaclesAfter, E.IsMember;
    OwnerAfter(ds, ann, p, caller, a, max, n);
    MemberAfter(ann, p, caller, a.env, max, email);
    R.SyncEffects(ann, p, caller, a.env, max);
    assert ToLower(email) in T.LowerSet(p.removeMembers);
    LowerEmpty(Get(ds[n].ann.value, Owner));
  }

  /** The same for a sync that only removes, in terms a caller can check: the e-mail is given in
      lower case as it is listed, or is not listed; it is not the owner; and its tentacle, if
      it owns this one, is managed and its update succeeded. */
  lemma PlainRemoval(
      ds: T.Deployments, ann: Annotations, p: SyncParams, caller: Option<Deployer>, a: Attempt, max: nat,
      email: string, n: string)
    requires Sync(ann, p, caller, a.env, max).Ok? && email in p.removeMembers && !a.getFails
    requires p.addMembers == [] && p.newOwner == ""
    requires n in ds && ds[n].ann.Some?
    ensures var left := TentaclesAfter(ds, Some(ann), p, caller, a, max);
            && n in left && left[n].ann.Some?
            && (NoStanding(email, Sync(ann, p, caller, a.env, max).value, left[n].ann.value) <==>
                  && (ToLower(email) in p.removeMembers || ToLower(email) !in ReadEnclaveInfo(ann).members)
                  && !E.IsOwnerOf(email, Get(ann, EnclaveOwner))
                  && (E.IsOwnerOf(email, Get(ds[n].ann.value, Owner)) ==> ds[n].managed && HandedOn(a, n)))
  {
    hide Sync, Members, FormatMembers, TentaclesAfter, E.IsMember, NoStanding, T.Orphan, T.LowerSet, E.IsOwnerOf,
        ToLower;
    RemovedLosesStanding(ds, ann, p, caller, a, max, email, n);
    var i := ReadEnclaveInfo(ann);
    R.ReadMembersNormalized(ann);
    forall x | x in i.members ensures Members(x) == [x] {
      ListedReads(x);
    }
    var m := ToLower(email);
    assert StaysListed(i, p, m) <==> m in i.members && m !in p.removeMembers by {
      if m in i.members && m !in p.removeMembers {
        assert m in i.members + p.addMembers && EntryStays(i, p, m) && m in Members(m);
      }
    }
  }

  /** What the evaluator decides after any accepted sync, for every OIDC caller and tentacle, from
      what was there before: the new owner may do anything, and anyone else what the classes
      that the edited list and the handed-on tentacle give them are granted at both layers. */
  lemma DecisionAfterSync(
      e: Option<E.Evaluator>, d: Deployer, ds: T.Deployments, ann: Annotations, p: SyncParams,
      caller: Option<Deployer>, a: Attempt, max: nat, n: string, action: M.Action)
    requires E.Oidc(e, Some(d)) && Sync(ann, p, caller, a.env, max).Ok? && !a.getFails
    requires n in ds && ds[n].ann.Some?
    ensures var after := Sync(ann, p, caller, a.env, max).value;
            var left := TentaclesAfter(ds, Some(ann), p, caller, a, max);
            var listed := if StaysListed(ReadEnclaveInfo(ann), p, ToLower(d.email)) then M.Group else M.Other;
            var handedOn := T.Orphan(ds[n], T.LowerSet(p.removeMembers)) && HandedOn(a, n);
            var owns := E.IsOwnerOf(d.email, Get(if handedOn then ann else ds[n].ann.value,
                                                 if handedOn then EnclaveOwner else Owner));
            && n in left && left[n].ann.Some?
            && (E.TentacleDecision(e, Some(d), after, left[n].ann.value, action).allowed <==>
                  || E.IsOwnerOf(d.email, if p.newOwner == "" then Get(ann, EnclaveOwner) else p.newOwner)
                  || (M.Grants(E.ModeOf(after), listed, action) &&
                      M.Grants(E.ModeOf(ds[n].ann.value), if owns then M.Owner else listed, action)))
  {
    hide Sync, E.TentacleDecision, E.ModeOf, ToLower, T.LowerSet, T.Orphan, M.Grants, E.IsOwnerOf, E.IsMember,
        TentaclesAfter, Members, FormatMembers, StaysListed, HandedOn;
    var after := Sync(ann, p, caller, a.env, max).value;
    OwnerAfter(ds, ann, p, caller, a, max, n);
    var t := TentaclesAfter(ds, Some(ann), p, caller, a, max)[n].ann.value;
    MemberAfter(ann, p, caller, a.env, max, d.email);
    R.SyncAccepted(ann, p, caller, a.env, max);
    R.SyncEffects(ann, p, caller, a.env, max);
    E.TentacleIff(e, Some(d), after, t, action);
    E.ModeSpelling(t, ds[n].ann.value);
  }

  lemma ListedReads(x: string)
    requires Normalized(x)
    ensures Members(x) == [x]
  {
    hide Members;
    TrimSnug(x, SPACE);
    EntryAlone(x);
  }

  const CALM := Attempt(R.ANYTIME, false, false, {}, [], false)

  function OwnedTentacle(owner: string): T.Deployment {
    T.Deployment(true, Some(map[Owner := owner]))
  }

  /** Removing "A" leaves "a" a member of the enclave, and yet hands on the tentacle of "a". */
  lemma VariantRemoval()
    ensures var ann := WriteEnclaveAnnotations(R.Sample("b", ["a"]));
            var p := SyncParams("", "", "", "", "", [], ["A"]);
            var ds: T.Deployments := map["t" := OwnedTentacle("a")];
            && AttemptOutcome(Some(ann), p, None, CALM, 1).1.Ok?
            && E.IsMember("a", AttemptOutcome(Some(ann), p, None, CALM, 1).1.value)
            && var left := TentaclesAfter(ds, Some(ann), p, None, CALM, 1);
               "t" in left && left["t"].ann.Some? && Get(left["t"].ann.value, Owner) == "b"
  {
    hide Sync, Members, ReadEnclaveInfo, WriteEnclaveAnnotations, ToLower, TentaclesAfter;
    var i := R.Sample("b", ["a"]);
    var ann := WriteEnclaveAnnotations(i);
    var p := SyncParams("", "", "", "", "", [], ["A"]);
    var ds: T.Deployments := map["t" := OwnedTentacle("a")];
    R.LettersRead("a");
    LowerA();
    R.SampleReads(i);
    SampleOwner(i);
    assert Added(["a"], "b", []) == ["a"];
    R.SyncAccepted(ann, p, None, R.ANYTIME, 1);
    MemberAfter(ann, p, None, R.ANYTIME, 1, "a");
    assert EntryStays(i, p, "a") && "a" in i.members + p.addMembers;
    OwnerAfter(ds, ann, p, None, CALM, 1, "t");
    assert ToLower("A") in T.LowerSet(p.removeMembers);
  }

  lemma LowerA()
    ensures ToLower("A") == "a"
  {
  }

  lemma SampleOwner(i: EnclaveInfo)
    ensures Get(WriteEnclaveAnnotations(i), EnclaveOwner) == i.owner
  {
  }

  // ----- whole calls -----

  /** Handing on never creates orphans. */
  lemma FewerOrphans(
      ds: T.Deployments, item: Option<Annotations>, p: SyncParams, caller: Option<Deployer>, a: Attempt, max: nat)
    ensures var removed := T.LowerSet(p.removeMembers);
            T.Orphans(TentaclesAfter(ds, item, p, caller, a, max), removed) <= T.Orphans(ds, removed)
  {
    hide T.Orphans, T.Transferred, T.LowerSet, RemovesMembers;
    if item.Some? {
      T.OrphansAfter(ds, T.LowerSet(p.removeMembers), Get(item.value, EnclaveOwner), a.tentacleFails);
    }
  }

  /** Over all attempts of a successful call: in the last one, which met no other write, every
      tentacle of a removed member was handed on, except those whose own update failed then,
      unless the Deployments could not be listed or the owner was removed too. */
  lemma {:induction false} RemovedHandOver(
      ds: T.Deployments, item: Option<Annotations>, p: SyncParams, caller: Option<Deployer>,
      rounds: seq<Attempt>, max: nat)
    returns (k: nat)
    requires SyncOutcome(item, p, caller, rounds, max).1.Ok? && p.removeMembers != []
    ensures k < |rounds| && rounds[k].writes == []
    ensures var before := if k == 0 then item else Last(None, rounds[k - 1].writes);
            var removed := T.LowerSet(p.removeMembers);
            && before.Some?
            && (!rounds[k].listFails && ToLower(Get(before.value, EnclaveOwner)) !in removed ==>
                  T.Orphans(TentaclesLeft(ds, item, p, caller, rounds, max), removed) <=
                  T.Orphans(ds, removed) * rounds[k].tentacleFails)
    decreases rounds
  {
    hide Sync, ToLower, T.Orphans, T.Transferred, T.LowerSet, RemovesMembers;
    var o := AttemptOutcome(item, p, caller, rounds[0], max);
    var d := TentaclesAfter(ds, item, p, caller, rounds[0], max);
    if o.1 == Err(Conflict) {
      if item.Some? { R.SyncNeverConflicts(item, p, caller, rounds[0].env, max); }
      var j := RemovedHandOver(d, o.0, p, caller, rounds[1..], max);
      FewerOrphans(ds, item, p, caller, rounds[0], max);
      k := j + 1;
      assert rounds[1..][j] == rounds[k];
    } else {
      k := 0;
      AcceptedRemoves(item.value, p, caller, rounds[0], max);
      T.OrphansAfter(ds, T.LowerSet(p.removeMembers), Get(item.value, EnclaveOwner), rounds[0].tentacleFails);
    }
  }

  lemma AcceptedRemoves(ann: Annotations, p: SyncParams, caller: Option<Deployer>, a: Attempt, max: nat)
    requires Sync(ann, p, caller, a.env, max).Ok? && p.removeMembers != []
    ensures RemovesMembers(ann, p, caller, max)
  {
    hide Members, WriteEnclaveAnnotations, Added, Without, M.Parse;
  }

  /** Only the namespace is all or nothing: whatever an attempt fails on after the removal, be it
      a bad status, a failed request or a conflict, it leaves the namespace to the other clients
      and has handed on every tentacle whose update succeeded. */
  lemma FailedSyncHandsOn(
      ds: T.Deployments, ann: Annotations, p: SyncParams, caller: Option<Deployer>, a: Attempt, max: nat)
    requires RemovesMembers(ann, p, caller, max) && AttemptOutcome(Some(ann), p, caller, a, max).1.Err?
    requires !a.getFails && !a.listFails && ToLower(Get(ann, EnclaveOwner)) !in T.LowerSet(p.removeMembers)
    ensures AttemptOutcome(Some(ann), p, caller, a, max).0 == Last(Some(ann), a.writes)
    ensures var removed := T.LowerSet(p.removeMembers);
            T.Orphans(TentaclesAfter(ds, Some(ann), p, caller, a, max), removed) ==
                T.Orphans(ds, removed) * a.tentacleFails
  {
    hide Sync, RemovesMembers, T.Orphans, T.Transferred, T.LowerSet, ToLower;
    T.OrphansAfter(ds, T.LowerSet(p.removeMembers), Get(ann, EnclaveOwner), a.tentacleFails);
  }
}
