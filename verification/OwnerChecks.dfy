/** Two notions of the enclave owner: `enclave_sync` compares e-mails as written
    (`pkg/tools/enclave.go`), the permission evaluator in any letter case (`pkg/authz/evaluator.go`). */
module OwnerChecks {
  import opened Wrappers
  import opened Text
  import opened Annotations
  import opened Caller
  import opened EnclaveAnnotations
  import opened EnclaveSync
  import E = Evaluator
  import M = Mode
  import R = EnclaveRuns

  /** Some owner-only change of the enclave is open to the caller. */
  ghost predicate MayChange(ann: Annotations, d: Deployer, max: nat) {
    exists p: SyncParams, env: SyncEnv :: IsOwnerOp(p) && Sync(ann, p, Some(d), env, max).Ok?
  }

  const FREEZE := SyncParams("", "", "frozen", "", "", [], [])

  lemma OwnerMayChange(ann: Annotations, d: Deployer, max: nat)
    requires IsOidc(Some(d)) && IsEnclave(ann)
    ensures MayChange(ann, d, max) <==> d.email != "" && d.email == Get(ann, EnclaveOwner)
  {
    hide Sync, IsEnclave, Members;
    if MayChange(ann, d, max) {
      var p: SyncParams, env: SyncEnv :| IsOwnerOp(p) && Sync(ann, p, Some(d), env, max).Ok?;
      R.SyncAuthorized(ann, p, Some(d), env, max);
    }
    R.SyncAccepted(ann, FREEZE, Some(d), R.ANYTIME, max);
    if d.email != "" && d.email == Get(ann, EnclaveOwner) {
      assert IsOwnerOp(FREEZE) && Sync(ann, FREEZE, Some(d), R.ANYTIME, max).Ok?;
    }
  }

  /** A caller whom the evaluator lets do anything as owner may make owner-only changes exactly if
      the e-mail is written as recorded. */
  lemma EvaluatorOwnerMayChange(e: Option<E.Evaluator>, d: Deployer, ann: Annotations, max: nat)
    requires E.Oidc(e, Some(d)) && IsEnclave(ann) && E.IsOwnerOf(d.email, Get(ann, EnclaveOwner))
    ensures forall t: Annotations, a: M.Action :: E.TentacleDecision(e, Some(d), ann, t, a).allowed
    ensures MayChange(ann, d, max) <==> d.email == Get(ann, EnclaveOwner)
  {
    hide Members, MayChange;
    LowerEmpty(d.email);
    LowerEmpty(Get(ann, EnclaveOwner));
    OwnerMayChange(ann, d, max);
  }

  /** Whom every owner-only change is open to is the owner for the evaluator too. */
  lemma ChangerIsOwner(ann: Annotations, d: Deployer, max: nat)
    requires IsOidc(Some(d)) && IsEnclave(ann) && MayChange(ann, d, max)
    ensures E.IsOwnerOf(d.email, Get(ann, EnclaveOwner))
  {
    OwnerMayChange(ann, d, max);
  }

  /** After the transfer to "B", the person "b" may do anything to the tentacles of the enclave and
      change nothing of the enclave itself. */
  lemma LockedOutOwner(e: Option<E.Evaluator>, d: Deployer, max: nat)
    requires E.Oidc(e, Some(d)) && d.email == "b"
    ensures var ann := WriteEnclaveAnnotations(R.Sample("a", ["b"]));
            var r := Sync(ann, SyncParams("B", "", "", "", "", [], []), None, R.ANYTIME, 1);
            && r.Ok?
            && (forall t: Annotations, a: M.Action :: E.TentacleDecision(e, Some(d), r.value, t, a).allowed)
            && !MayChange(r.value, d, max)
  {
    hide Sync, MayChange, WriteEnclaveAnnotations, Members;
    var ann := WriteEnclaveAnnotations(R.Sample("a", ["b"]));
    var p := SyncParams("B", "", "", "", "", [], []);
    R.VariantTransfer();
    R.SyncAccepted(ann, p, None, R.ANYTIME, 1);
    R.SyncEffects(ann, p, None, R.ANYTIME, 1);
    R.LowerB();
    var after := Sync(ann, p, None, R.ANYTIME, 1).value;
    assert Get(after, EnclaveOwner) == "B" && ToLower("b") == "b";
    EvaluatorOwnerMayChange(e, d, after, max);
  }
}
