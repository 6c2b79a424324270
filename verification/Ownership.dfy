/** `AnnotateDeployer` (`pkg/exoskeleton/enrich.go`): provenance and ownership annotations of a
    Deployment, carried from one deploy of it to the next. */
module Ownership {
  import opened Wrappers
  import opened Annotations
  import opened Caller

  datatype Manifest = Manifest(kind: string, ann: Annotations)

  /** `existing` are the annotations of the deployed object on an update, nothing on a create. */
  datatype Params = Params(existing: Annotations, mode: string, deployer: Deployer, isUpdate: bool)

  const CARRIED: seq<Key> := [Owner, OwnerSub, OwnerEmail, OwnerName, PermissionMode, CreatedAt]

  /** The ownership facts fixed by the first deploy. */
  const FROZEN: set<Key> := {Owner, OwnerSub, OwnerEmail, OwnerName, CreatedAt}

  function Provenance(ann: Annotations, d: Deployer, now: string): Annotations {
    ann[DeployedBy := if d.email == "" then "bearer-token" else d.email]
       [DeployedVia := if d.agentType == "" then "unknown" else d.agentType]
       [DeployedAt := now]
       [AuthProvider := d.provider]
  }

  function Carry(ann: Annotations, existing: Annotations, n: nat): Annotations
    requires n <= |CARRIED|
  {
    if n == 0 then ann
    else
      var k := CARRIED[n - 1];
      var before := Carry(ann, existing, n - 1);
      if Get(existing, k) != "" then before[k := existing[k]] else before
  }

  /** Who may change the mode of a deployed object. */
  predicate MaySetMode(d: Deployer, existing: Annotations) {
    d.provider == "bearer-token" || Get(existing, Owner) == "" || (d.email != "" && d.email == Get(existing, Owner))
  }

  function Annotate(ann: Annotations, p: Params, now: string): Annotations {
    var d := p.deployer;
    var stamped := Provenance(ann, d, now);
    if p.isUpdate then
      var carried := Carry(stamped, p.existing, |CARRIED|);
      var moded := if MaySetMode(d, p.existing) && p.mode != "" then carried[PermissionMode := p.mode] else carried;
      moded[UpdatedAt := now][UpdatedBySub := d.subject][UpdatedByEmail := d.email]
    else
      var owned := stamped[CreatedAt := now][Owner := d.email];
      var subbed := if d.subject != "" then owned[OwnerSub := d.subject] else owned;
      subbed[OwnerEmail := d.email][OwnerName := d.displayName][PermissionMode := p.mode]
  }

  method AnnotateDeployer(ms: seq<Manifest>, p: Params, now: string) returns (r: seq<Manifest>)
    ensures |r| == |ms|
    ensures forall i :: 0 <= i < |ms| ==>
              r[i] == if ms[i].kind == "Deployment" then ms[i].(ann := Annotate(ms[i].ann, p, now)) else ms[i]
  {
    r := ms;
    var d := p.deployer;
    for i := 0 to |ms|
      invariant |r| == |ms|
      invariant forall j :: i <= j < |ms| ==> r[j] == ms[j]
      invariant forall j :: 0 <= j < i ==>
                  r[j] == if ms[j].kind == "Deployment" then ms[j].(ann := Annotate(ms[j].ann, p, now)) else ms[j]
    {
      if ms[i].kind != "Deployment" {
        continue;
      }
      var ann := Stamp(ms[i].ann, p, now);
      r := r[i := ms[i].(ann := ann)];
    }
  }

  /** The annotations of one Deployment, key by key. */
  method Stamp(ann0: Annotations, p: Params, now: string) returns (ann: Annotations)
    ensures ann == Annotate(ann0, p, now)
  {
    hide Get;
    var d := p.deployer;
    ann := ann0;
    ann := ann[DeployedBy := if d.email == "" then "bearer-token" else d.email];
    ann := ann[DeployedVia := if d.agentType == "" then "unknown" else d.agentType];
    ann := ann[DeployedAt := now];
    ann := ann[AuthProvider := d.provider];
    if p.isUpdate {
      ghost var stamped := ann;
      for i := 0 to |CARRIED|
        invariant ann == Carry(stamped, p.existing, i)
      {
        GetPresent(p.existing, CARRIED[i]);
        var k := CARRIED[i];
        if k in p.existing && p.existing[k] != "" {
          ann := ann[k := p.existing[k]];
        }
      }
      if MaySetMode(d, p.existing) {
        if p.mode != "" {
          ann := ann[PermissionMode := p.mode];
        }
      }
      ann := ann[UpdatedAt := now];
      ann := ann[UpdatedBySub := d.subject];
      ann := ann[UpdatedByEmail := d.email];
    } else {
      ann := ann[CreatedAt := now];
      ann := ann[Owner := d.email];
      if d.subject != "" {
        ann := ann[OwnerSub := d.subject];
      }
      ann := ann[OwnerEmail := d.email];
      ann := ann[OwnerName := d.displayName];
      ann := ann[PermissionMode := p.mode];
    }
  }

  lemma GetPresent(ann: Annotations, k: Key)
    ensures Get(ann, k) != "" <==> k in ann && ann[k] != ""
  {
  }

  // ----- one update -----

  lemma {:induction false} CarryLookup(ann: Annotations, existing: Annotations, n: nat, k: Key)
    requires n <= |CARRIED|
    ensures Get(Carry(ann, existing, n), k) ==
            if k in CARRIED[..n] && Get(existing, k) != "" then Get(existing, k) else Get(ann, k)
  {
    if n > 0 {
      CarryLookup(ann, existing, n - 1, k);
      assert CARRIED[..n] == CARRIED[..n - 1] + [CARRIED[n - 1]];
    }
  }

  /** An update keeps every frozen fact that is stored, and takes a missing one from the manifest. */
  lemma UpdateKeepsFrozen(ann: Annotations, p: Params, now: string, k: Key)
    requires p.isUpdate && k in FROZEN
    ensures Get(Annotate(ann, p, now), k) == if Get(p.existing, k) != "" then Get(p.existing, k) else Get(ann, k)
  {
    hide Carry;
    CarryLookup(Provenance(ann, p.deployer, now), p.existing, |CARRIED|, k);
    assert CARRIED[..|CARRIED|] == CARRIED;
    CarriedKeys(k);
  }

  lemma CarriedKeys(k: Key)
    ensures k in CARRIED <==> k in FROZEN || k == PermissionMode
  {
    assert CARRIED[0] == Owner && CARRIED[1] == OwnerSub && CARRIED[2] == OwnerEmail && CARRIED[3] == OwnerName &&
           CARRIED[4] == PermissionMode && CARRIED[5] == CreatedAt;
  }

  /** An update sets the mode exactly for those who may; otherwise the stored mode stays. */
  lemma UpdateMode(ann: Annotations, p: Params, now: string)
    requires p.isUpdate
    ensures Get(Annotate(ann, p, now), PermissionMode) ==
            if MaySetMode(p.deployer, p.existing) && p.mode != "" then p.mode
            else if Get(p.existing, PermissionMode) != "" then Get(p.existing, PermissionMode)
            else Get(ann, PermissionMode)
  {
    hide Carry, MaySetMode;
    CarryLookup(Provenance(ann, p.deployer, now), p.existing, |CARRIED|, PermissionMode);
    assert CARRIED[..|CARRIED|] == CARRIED;
    CarriedKeys(PermissionMode);
  }

  // ----- the life of a Deployment -----

  /** One deploy of the same workflow: any caller, any manifest annotations, any mode. */
  datatype Deploy = Deploy(deployer: Deployer, manifest: Annotations, mode: string, now: string)

  /** The annotations after a deploy: a create if nothing is deployed, an update otherwise. */
  function After(stored: Option<Annotations>, d: Deploy): Annotations {
    if stored.None? then Annotate(d.manifest, Params(map[], d.mode, d.deployer, false), d.now)
    else Annotate(d.manifest, Params(stored.value, d.mode, d.deployer, true), d.now)
  }

  /** The annotations after further deploys of an existing Deployment. */
  function Life(stored: Annotations, ds: seq<Deploy>): Annotations {
    if ds == [] then stored else After(Some(Life(stored, ds[..|ds| - 1])), ds[|ds| - 1])
  }

  /** As long as a Deployment lives, no deploy by anyone changes a recorded owner, owner subject,
      owner e-mail, owner name or creation time. */
  lemma {:induction false} FrozenForLife(stored: Annotations, ds: seq<Deploy>, k: Key)
    requires k in FROZEN && Get(stored, k) != ""
    ensures Get(Life(stored, ds), k) == Get(stored, k)
  {
    hide Annotate, Get;
    if ds != [] {
      var before := ds[..|ds| - 1];
      var d := ds[|ds| - 1];
      FrozenForLife(stored, before, k);
      UpdateKeepsFrozen(d.manifest, Params(Life(stored, before), d.mode, d.deployer, true), d.now, k);
    }
  }

  predicate Outsider(d: Deploy, owner: string) {
    d.deployer.provider != "bearer-token" && d.deployer.email != owner
  }

  /** On an owned Deployment, only a bearer-token caller or the recorded owner changes a recorded
      mode: without one of those among the deploys it stays; and each of them with a mode sets it. */
  lemma {:induction false} ModeForLife(stored: Annotations, ds: seq<Deploy>)
    requires Get(stored, Owner) != "" && Get(stored, PermissionMode) != ""
    ensures Get(Life(stored, ds), PermissionMode) != ""
    ensures (forall d <- ds :: Outsider(d, Get(stored, Owner)) || d.mode == "") ==>
              Get(Life(stored, ds), PermissionMode) == Get(stored, PermissionMode)
    ensures ds != [] && !Outsider(ds[|ds| - 1], Get(stored, Owner)) && ds[|ds| - 1].mode != "" ==>
              Get(Life(stored, ds), PermissionMode) == ds[|ds| - 1].mode
  {
    hide Annotate, Get;
    if ds != [] {
      var before := ds[..|ds| - 1];
      var d := ds[|ds| - 1];
      assert d in ds && forall e <- before :: e in ds;
      ModeForLife(stored, before);
      FrozenForLife(stored, before, Owner);
      UpdateMode(d.manifest, Params(Life(stored, before), d.mode, d.deployer, true), d.now);
    }
  }

  /** A create records its deployer as owner, whatever the manifest claims, except that the
      subject a manifest claims stays when the deployer has none. */
  lemma CreateRecords(d: Deploy)
    ensures var a := After(None, d);
            && Get(a, Owner) == d.deployer.email && Get(a, OwnerEmail) == d.deployer.email
            && Get(a, OwnerName) == d.deployer.displayName && Get(a, CreatedAt) == d.now
            && Get(a, PermissionMode) == d.mode
            && Get(a, OwnerSub) == (if d.deployer.subject != "" then d.deployer.subject else Get(d.manifest, OwnerSub))
  {
  }

  /** Whoever creates a Deployment is its recorded owner for life: no sequence of later deploys by
      anyone, whatever their manifests claim, changes what the create recorded. */
  lemma CreatorForLife(d: Deploy, ds: seq<Deploy>)
    ensures var a := Life(After(None, d), ds);
            && (d.deployer.email != "" ==> Get(a, Owner) == d.deployer.email && Get(a, OwnerEmail) == d.deployer.email)
            && (d.deployer.displayName != "" ==> Get(a, OwnerName) == d.deployer.displayName)
            && (d.deployer.subject != "" ==> Get(a, OwnerSub) == d.deployer.subject)
            && (d.now != "" ==> Get(a, CreatedAt) == d.now)
  {
    hide Annotate, Get, Life;
    CreateRecords(d);
    var born := After(None, d);
    forall k | k in FROZEN && Get(born, k) != "" ensures Get(Life(born, ds), k) == Get(born, k) {
      FrozenForLife(born, ds, k);
    }
  }

  const PROVENANCE: set<Key> := {DeployedBy, DeployedVia, DeployedAt, AuthProvider}
  const UPDATE_TRAIL: set<Key> := {UpdatedAt, UpdatedBySub, UpdatedByEmail}

  /** What a deploy stamps on the Deployment: who deployed, through what, when, and under which
      provider; an update also says who made it. */
  function TrailValue(d: Deploy, k: Key): string {
    match k
    case DeployedBy => if d.deployer.email == "" then "bearer-token" else d.deployer.email
    case DeployedVia => if d.deployer.agentType == "" then "unknown" else d.deployer.agentType
    case AuthProvider => d.deployer.provider
    case UpdatedBySub => d.deployer.subject
    case UpdatedByEmail => d.deployer.email
    case _ => d.now
  }

  lemma ProvenanceValue(d: Deploy, k: Key)
    ensures k in PROVENANCE ==> Get(Provenance(d.manifest, d.deployer, d.now), k) == TrailValue(d, k)
  {
  }

  lemma TrailSurvives(stored: Option<Annotations>, d: Deploy, k: Key)
    requires k in PROVENANCE || (stored.Some? && k in UPDATE_TRAIL)
    ensures var stamped := Provenance(d.manifest, d.deployer, d.now);
            Get(After(stored, d), k) ==
            if k in UPDATE_TRAIL then TrailValue(d, k)
            else if stored.Some? then Get(Carry(stamped, stored.value, |CARRIED|), k)
            else Get(stamped, k)
  {
    hide Carry, Provenance, MaySetMode;
  }

  /** Stamps are never carried over from what is stored, nor taken from the manifest. */
  lemma TrailIsStamped(stored: Option<Annotations>, d: Deploy, k: Key)
    requires k in PROVENANCE || (stored.Some? && k in UPDATE_TRAIL)
    ensures Get(After(stored, d), k) == TrailValue(d, k)
  {
    hide Carry, Provenance, TrailValue, After, FROZEN;
    ProvenanceValue(d, k);
    TrailSurvives(stored, d, k);
    TrailAside(k);
    if stored.Some? {
      CarrySkips(Provenance(d.manifest, d.deployer, d.now), stored.value, k);
    }
  }

  lemma TrailAside(k: Key)
    ensures k in PROVENANCE + UPDATE_TRAIL ==> k !in FROZEN && k != PermissionMode
  {
  }

  /** An update determines every annotation of the Deployment: the trail is stamped with who deploys
      now, ownership comes from what is stored, the mode from whoever may set it, and all else
      from the manifest. */
  lemma UpdateDetermines(stored: Annotations, d: Deploy, k: Key)
    ensures var maySetMode := d.deployer.provider == "bearer-token" || Get(stored, Owner) == "" ||
                              d.deployer.email == Get(stored, Owner);
            Get(After(Some(stored), d), k) ==
            if k in {DeployedBy, DeployedVia, DeployedAt, AuthProvider, UpdatedAt, UpdatedBySub, UpdatedByEmail}
            then TrailValue(d, k)
            else if k == PermissionMode && maySetMode && d.mode != "" then d.mode
            else if k in {Owner, OwnerSub, OwnerEmail, OwnerName, CreatedAt, PermissionMode} && Get(stored, k) != ""
            then Get(stored, k)
            else Get(d.manifest, k)
  {
    hide Annotate, TrailValue, MaySetMode;
    var p := Params(stored, d.mode, d.deployer, true);
    TrailAside(k);
    MaySpelled(d, stored);
    if k in PROVENANCE + UPDATE_TRAIL {
      TrailIsStamped(Some(stored), d, k);
    } else if k in FROZEN {
      FrozenAside(k);
      UpdateKeepsFrozen(d.manifest, p, d.now, k);
    } else if k == PermissionMode {
      UpdateMode(d.manifest, p, d.now);
    } else {
      ManifestShows(stored, d, k);
    }
  }

  lemma MaySpelled(d: Deploy, stored: Annotations)
    ensures MaySetMode(d.deployer, stored) <==>
            d.deployer.provider == "bearer-token" || Get(stored, Owner) == "" || d.deployer.email == Get(stored, Owner)
  {
  }

  /** A create determines every annotation too: besides the provenance it records the deployer as
      owner, whatever the manifest claims, and leaves all else to the manifest. */
  lemma CreateDetermines(d: Deploy, k: Key)
    ensures Get(After(None, d), k) ==
            if k in {DeployedBy, DeployedVia, DeployedAt, AuthProvider} then TrailValue(d, k)
            else if k in {Owner, OwnerEmail} then d.deployer.email
            else if k == OwnerName then d.deployer.displayName
            else if k == CreatedAt then d.now
            else if k == PermissionMode then d.mode
            else if k == OwnerSub && d.deployer.subject != "" then d.deployer.subject
            else Get(d.manifest, k)
  {
    if k in PROVENANCE {
      TrailIsStamped(None, d, k);
    } else {
      hide Provenance;
      ProvenanceAside(d, k);
    }
  }

  lemma ProvenanceAside(d: Deploy, k: Key)
    ensures k !in PROVENANCE ==> Get(Provenance(d.manifest, d.deployer, d.now), k) == Get(d.manifest, k)
  {
  }

  lemma FrozenAside(k: Key)
    ensures k in FROZEN ==> k != PermissionMode
  {
  }

  lemma ManifestShows(stored: Annotations, d: Deploy, k: Key)
    requires k !in PROVENANCE + UPDATE_TRAIL && k !in FROZEN && k != PermissionMode
    ensures Get(After(Some(stored), d), k) == Get(d.manifest, k)
  {
    hide Carry, MaySetMode, FROZEN;
    CarrySkips(Provenance(d.manifest, d.deployer, d.now), stored, k);
  }

  lemma CarrySkips(ann: Annotations, existing: Annotations, k: Key)
    requires k !in FROZEN && k != PermissionMode
    ensures Get(Carry(ann, existing, |CARRIED|), k) == Get(ann, k)
  {
    hide Carry;
    assert CARRIED[..|CARRIED|] == CARRIED;
    CarriedKeys(k);
    CarryLookup(ann, existing, |CARRIED|, k);
  }
}
