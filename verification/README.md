# Verified model of tentacular-mcp

tentacular-mcp serves tools that create and change enclaves (Kubernetes namespaces with owners and
members), deploy workflows into them, and register those workflows with NATS, S3 and Postgres. This
project models the parts of it that decide something or keep state, and proves what they promise
over all inputs, all runs and all patterns of API failures. `dafny verify dfyconfig.toml` checks it.

How the model is laid out:

- `Text`, `Sorting`, `Json`, `Annotations` and `Wrappers` model what the Go code takes from its
  libraries: ASCII string functions, `sort.Slice`, unstructured manifests, annotation maps, results.
  `Caller` is the identity of a caller, which several modules decide by.
- `EnclaveAnnotations`, `EnclaveSync`, `EnclaveRuns`, `Tentacles` and `Provision` are the enclave
  lifecycle; `Removal` and `OwnerChecks` follow members and owners through namespace, Deployments and
  the permission evaluator; `Optimistic` is the read-modify-write protocol that `enclave_sync` and the NATS registrar
  share, with any number of callers interleaved request by request.
- `NatsAuthz`, `NatsRoundTrip`, `NatsRegistry` and `Tenancy` are the NATS authorization text, its
  printer and parser, and the registry kept in it.
- `Psa`, `PsaValidation`, `PsaHardening` and `PsaPlaces` are the Pod Security hardening and its
  validator; `WorkflowApply`, `ApplyProperties` and `ApplyAcceptance` are `wf_apply` and `wf_remove`.
- `Egress`, `AllowFlags` and `AllowNet` rewrite network policies and Deno permission flags;
  `Identity`, `Mode`, `Evaluator`, `Ownership` and `Scheduler` are the modules of those names.

Conventions. Code that loops or updates state is a method, often of a class, whose `ensures` ties it
to a specification function; the theorems are lemmas about those functions. An API server is a
store; whether a call fails, what a clock or a resolver answers, and what other clients write
between two requests are parameters, so a theorem over those parameters holds for every behaviour of
the environment. A failed write is one that was not applied. Configurable limits
(`MaxEnclaveMembers`, `MaxEnclavesPerOwner`) are parameters. SHA-256 is an arbitrary function to
eight hexadecimal digits. A Go map whose iteration order matters is visited in an arbitrary order.

What the proofs show about the code that its documentation does not say:

- `ValidatePSA` documents the Restricted profile but applies the same checks on every level other
  than the empty one and `privileged`, so on `baseline` too (pkg/k8s/psa.go:90-93). The model follows
  the code.
- An ownership transfer accepts a letter-case variant of a member as new owner, and then keeps the
  member next to the owner and adds one person to the count. `TransferConserves` says exactly when a
  transfer conserves the people of an enclave, and `VariantTransfer` is a transfer that does not.
- The member limit is tested before a transfer and on entries, not on what the text reads back as:
  an added `a,b` counts once and reads back as two members (`CommaOverfills`), and a letter-case
  variant as new owner adds one (`VariantTransfer`). `SyncKeepsBound` is the exact condition.
- `enclave_sync` can take an owner over the enclave cap, because only `enclave_provision` checks it:
  `SyncKeepsCap` and `RunsKeepCap` say exactly when it does not, `TransferExceedsCap` is a sync that does.
- A member to remove is matched as written in the member list, but in any letter case among the
  owners of tentacles: removing `A` hands on the tentacles of `a`, who stays a member
  (`VariantRemoval`). `PlainRemoval` says exactly when a removed member has no standing left.
- Only the namespace is all or nothing: a sync that fails after the removal, on a bad value, a failed
  request or a conflict, has handed on the tentacles already (`FailedSyncHandsOn`).
- `enclave_sync` compares the owner's e-mail as written, the evaluator in any letter case: after a
  transfer to "B" the person "b" may do anything to the tentacles and change nothing of the enclave
  (`EvaluatorOwnerMayChange`, `LockedOutOwner`).
- The cap is counted before the namespace is created, so of two concurrent provisions both can pass
  the count (`ConcurrentProvisions`).
- Two tenants whose workflow names differ by a dotted extension share NATS subjects, although dots
  are accepted in workflow names (`NatsOverlap`, `DottedTenantsOverlap`). Postgres roles collide for
  whole families of tenants: `PgRolesCollide` moves a hyphen, and `FoldedRolesCollide` takes accepted
  workflow names that differ in letter case, dots, or an underscore for a hyphen. `RolesEqual` says
  exactly which tenants share one, for all names, `RolesApart` what to check.
- The owner bypass of `CheckTentacle` comes before the test that the namespace is an enclave, so the
  tentacle layer implies the enclave layer only under the condition of `TentacleImpliesEnclave`.
- A failed schedule change leaves an indexed workflow without a job, and registering its recorded
  schedule again does not bring the job back (`LiveAfter`, `FailedChangeSticks`).
- Hardening overwrites a `volumes` or `volumeMounts` field that is not a list; `HardenExtends` says
  exactly when nothing the author wrote is lost, and `VolumesOverwritten` is a manifest that loses. A
  `securityContext` that is present but not an object keeps its defaults out, and
  `HardenedViolations` counts that among the author's faults.
- `patchDeploymentOTelEnv` documents that it adds nothing twice (pkg/exoskeleton/enrich.go:519-524),
  but `patchAllowNetInSlice` appends unconditionally, and a second pass over a container whose
  arguments and command both carry `--allow-env=` reaches the command too. `TelemetryTwice` says
  exactly where the patch is idempotent, `CollectorListedTwice` is an input where it is not, and
  `TelemetryGrants` shows that the set of granted hosts is stable on every container.
- Garbage collection reaches only the nine known resource types; `ApplyReconciles` says exactly
  which old resources keep the release label.

## Model

| member | source | states |
|---|---|---|
| `Text.CaseAndSpace` | pkg/authz/enclave_annotations.go:126-138 | which characters lower-casing and trimming change |
| `Text.LessAtDifference` | pkg/exoskeleton/registrar_nats.go:323-327 | texts are ordered at their first difference, the smaller character or the shorter text first |
| `EnclaveAnnotations.ParseMembers` | pkg/authz/enclave_annotations.go:126-138 | the parsing loop returns the trimmed, lower-cased, non-empty parts in order |
| `EnclaveAnnotations.MembersNormalized` | pkg/authz/enclave_annotations.go:123-138 | whatever the text, every parsed member is trimmed, lower-case, non-empty and comma-free |
| `EnclaveAnnotations.MembersRoundTrip` | pkg/authz/enclave_annotations.go:126-144 | parsing a formatted list gives it back exactly when all its members are normalized |
| `EnclaveAnnotations.MembersPerEntry` | pkg/authz/enclave_annotations.go:123-144 | every formatted list, commas and blanks included, reads back entry by entry |
| `EnclaveAnnotations.MembersNormalForm` | pkg/authz/enclave_annotations.go:126-144 | for every text, parse-format-parse equals parse |
| `EnclaveAnnotations.ReadAfterWrite` | pkg/authz/enclave_annotations.go:88-121 | merging written metadata over any annotations reads back every field, members up to re-reading, and leaves other keys alone |
| `EnclaveAnnotations.WriteRoundTrip` | pkg/authz/enclave_annotations.go:88-121 | reading inverts writing on exactly the infos with normalized members |
| `EnclaveAnnotations.ValidateEnclaveInfo` | pkg/authz/enclave_annotations.go:186-222 | no error exactly on valid infos; otherwise the first failure in source order, with the index of the first bad member |
| `EnclaveAnnotations.InfoErrors` | pkg/authz/enclave_annotations.go:186-222 | what each failure says about the info, and that what is noticed before was in order |
| `EnclaveSync.AddMembers` | pkg/tools/enclave.go:624-635 | the add loop with its lookup set appends each new non-owner once, in order |
| `EnclaveSync.FilterMembers` | pkg/tools/enclave.go:643-654 | the filter loop keeps exactly the members not removed, in order |
| `EnclaveSync.ComputeSync` | pkg/tools/enclave.go:598-748 | the field-by-field edits of one cycle equal the pure sync transformation, errors included, and the tentacles of removed members go to the owner that was read whatever becomes of the cycle |
| `EnclaveSync.AttemptEnclaveSync` | pkg/tools/enclave.go:592-782 | one attempt commits the sync of what it read if nobody wrote in between and no request fails, and otherwise leaves the other clients' last write; in either case the tentacles are those its removal left |
| `EnclaveSync.HandleEnclaveSync` | pkg/tools/enclave.go:575-588 | three attempts at most, started over only after a conflict, on the namespace and on the tentacles |
| `EnclaveRuns.DecidingAttempt` | pkg/tools/enclave.go:578-588 | the call ends as its first attempt that is not overtaken, on what the last foreign write left; in a conflict exactly if all were overtaken; and every attempt so far has handed on what it could |
| `EnclaveRuns.SecondAttemptCommits` | pkg/tools/enclave.go:579-585 | a call overtaken once commits, in its second attempt, the sync of what the other client left |
| `EnclaveRuns.LoopInProtocol` | pkg/tools/enclave.go:578-782 | scheduled request by request among the same foreign writes, the loop leaves the same namespace in the protocol and succeeds exactly when it does there |
| `Optimistic.SoloRun` | pkg/tools/enclave.go:578-782 | the same for any read-modify-write call with bounded attempts |
| `EnclaveRuns.SyncRunsAreSerial` | pkg/tools/enclave.go:578-782 | under any interleaving the namespace is the committed syncs performed one after another; a successful call committed once, any other never; each commit is the sync of the state it replaced, by its recorded owner if the change is owner-only and the caller OIDC; at most three conflicts |
| `EnclaveRuns.RetriesLoseNothing` | pkg/tools/enclave.go:578-588 | success of the retry loop means the last attempt met no write and the namespace holds the sync of what the last foreign write left; failure leaves only foreign writes |
| `EnclaveRuns.SyncAccepted` | pkg/tools/enclave.go:603-740 | exactly which parameters, callers and states a sync accepts |
| `EnclaveRuns.SyncRefused` | pkg/tools/enclave.go:603-740 | with which error a sync is refused: the first problem in order |
| `EnclaveRuns.SyncEffects` | pkg/tools/enclave.go:621-748 | after a sync every field reads back as requested or as before, and no other annotation changes but mode and quota preset |
| `EnclaveRuns.SyncKeepsBound` | pkg/tools/enclave.go:624-695 | the member limit holds after a sync exactly when the edited list reads back within it; without commas and blanks, exactly when a new owner is listed as written or leaves room |
| `EnclaveRuns.CommaOverfills` | pkg/tools/enclave.go:624-637 | an accepted sync that ends over the limit by one added entry with a comma |
| `EnclaveRuns.RunsKeepBound` | pkg/tools/enclave.go:578-695 | the limit holds over every interleaved run in which added e-mails hold no comma and new owners are in lower case, whatever other clients write within the limit |
| `EnclaveRuns.RunsKeepProper` | pkg/tools/enclave.go:578-695 | over every interleaved run with normalized e-mails members stay distinct and other than the owner |
| `EnclaveRuns.TransferConserves` | pkg/tools/enclave.go:671-695 | a pure transfer keeps members proper exactly when the new owner is written as a listed member; then owner plus members and the count are conserved, otherwise the count grows by one |
| `EnclaveRuns.VariantTransfer` | pkg/tools/enclave.go:671-695 | a transfer to a member in another letter case that is accepted, keeps the member listed and exceeds the limit |
| `Provision.EnclaveLife` | pkg/tools/enclave.go:281-432 | from provisioning on, runs of comma-free requests keep the count within the limit, and normalized runs keep distinct members distinct and other than the owner |
| `Removal.MemberAfter` | pkg/tools/enclave.go:624-695 | who is a member for the evaluator after any accepted sync, for every spelling of the entries |
| `Removal.RemovedLosesStanding` | pkg/tools/enclave.go:641-850 | exactly when a removed e-mail is neither owner nor member of the enclave nor owner of a tentacle after any accepted sync |
| `Removal.PlainRemoval` | pkg/tools/enclave.go:641-669 | after a sync that only removes: exactly when the e-mail is given as listed or not listed, is not the owner, and a tentacle of its own is managed and was updated |
| `Removal.DecisionAfterSync` | pkg/authz/evaluator.go:144-194 | what the evaluator decides after any accepted sync, for every OIDC caller and every tentacle, from the state before |
| `Removal.VariantRemoval` | pkg/tools/enclave.go:643-661 | removing A leaves a a member and hands on the tentacle of a |
| `Removal.RemovedHandOver` | pkg/tools/enclave.go:578-850 | over all attempts of a successful call the only tentacles left with removed members are those whose update failed in the last one, if they could be listed and the owner is not removed too |
| `Removal.FailedSyncHandsOn` | pkg/tools/enclave.go:657-763 | whatever an attempt fails on after the removal, it leaves the namespace to the other clients and has handed on every tentacle whose update succeeded |
| `OwnerChecks.OwnerMayChange` | pkg/tools/enclave.go:603-617 | some owner-only change is open to an OIDC caller exactly if the e-mail is the recorded one, letter for letter |
| `OwnerChecks.EvaluatorOwnerMayChange` | pkg/authz/evaluator.go:160-167 | whom the evaluator lets do anything as owner may change the enclave exactly if the e-mail is written as recorded |
| `OwnerChecks.ChangerIsOwner` | pkg/tools/enclave.go:610-617 | who may change the enclave is its owner for the evaluator too |
| `OwnerChecks.LockedOutOwner` | pkg/tools/enclave.go:671-695 | an owner after an accepted transfer, allowed everything on tentacles and no change of the enclave |
| `Tentacles.DeploymentApi.TransferOrphanedTentacles` | pkg/tools/enclave.go:787-850 | for every listing order and failure pattern: one report per orphan, none else, and exactly the reported successes change hands |
| `Tentacles.ReportsAll` | pkg/tools/enclave.go:806-847 | over any listing of the managed Deployments, the reports name each orphan once with its old owner and its outcome |
| `Tentacles.OrphansAfter` | pkg/tools/enclave.go:794-847 | which Deployments are orphans after a transfer with failures |
| `Tentacles.RerunSettles` | pkg/tools/enclave.go:784-850 | a failure-free rerun leaves no orphan exactly when the new owner is not removed (or there was no orphan) |
| `Provision.CountEnclavesOwnedBy` | pkg/tools/enclave.go:938-959 | counts the managed enclaves of an owner in any letter case, in any listing order |
| `Provision.Server.HandleEnclaveProvision` | pkg/tools/enclave.go:281-432 | the method with its deferred rollback leaves the cluster and the error of the specification |
| `Provision.ProvisionAccepted` | pkg/tools/enclave.go:281-432 | exactly which provisions are accepted, every condition spelled out |
| `Provision.ProvisionRefused` | pkg/tools/enclave.go:288-420 | with which error a provision is refused: the first problem in order, a failed step by its name |
| `Provision.DeprovisionAccepted` | pkg/tools/enclave.go:852-928 | exactly which deprovisions delete, and that they delete that namespace only |
| `Provision.ProvisionAllOrNothing` | pkg/tools/enclave.go:311-432 | for every failure pattern an error leaves the cluster as it was unless the rollback fails, no existing namespace is ever touched, and success adds every resource |
| `Provision.ProvisionReadsBack` | pkg/tools/enclave.go:332-368 | the annotations of a provisioned enclave read back to each requested value, members exactly if normalized |
| `Provision.SyncKeepsCap` | pkg/tools/enclave.go:671-695 | an accepted sync keeps every owner within the cap exactly when it hands the enclave to nobody, to the same person, or to someone below the cap |
| `Provision.RunsKeepCap` | pkg/tools/enclave.go:302-309 | every state of a sequence of provisions, deprovisions and syncs respects the cap in any letter case exactly when no accepted transfer goes to someone who has reached it |
| `Provision.TransferExceedsCap` | pkg/tools/enclave.go:672-695 | an accepted transfer after which one person owns two enclaves under a cap of one |
| `Provision.ConcurrentProvisions` | pkg/tools/enclave.go:302-330 | two provisions that both count before either creates exceed the cap by one; one after the other, the second is refused |
| `NatsAuthz.ParseAuthzConfig` | pkg/exoskeleton/registrar_nats.go:232-297 | the line loop with its flags returns the entries the text denotes |
| `NatsAuthz.ParseAllowList` | pkg/exoskeleton/registrar_nats.go:301-319 | the subjects between the first and the last bracket |
| `NatsAuthz.RenderAuthzConfig` | pkg/exoskeleton/registrar_nats.go:323-357 | the builder loop prints the sorted entries in the expected lines |
| `NatsRoundTrip.UserRoundTrip` | pkg/exoskeleton/registrar_nats.go:246-251 | a user comes back from its quoted form exactly when no character needs escaping |
| `NatsRoundTrip.SubjectsRoundTrip` | pkg/exoskeleton/registrar_nats.go:301-319 | a subject list comes back exactly when every subject is plain, non-empty and comma-free |
| `NatsRoundTrip.ParseRendered` | pkg/exoskeleton/registrar_nats.go:232-366 | for every list, the printed text parses to the sorted entries, each as its quoting lets it through |
| `NatsRoundTrip.AuthzRoundTrip` | pkg/exoskeleton/registrar_nats.go:232-366 | parse after print is the sorted list exactly when every entry is clean |
| `NatsRoundTrip.TextOfOne` | pkg/exoskeleton/registrar_nats.go:328-361 | the text of a registry with one principal, line by line |
| `NatsRegistry.UpsertEntry` | pkg/exoskeleton/registrar_nats.go:196-207 | the loop replaces the first entry of the user, or appends |
| `NatsRegistry.UpsertAuthzEntry` | pkg/exoskeleton/registrar_nats.go:163-219 | a registration writes the updated text, or nothing if it lost the race |
| `NatsRegistry.UnregisterSpiffe` | pkg/exoskeleton/registrar_nats.go:124-159 | a removal writes the shorter text, does nothing if the principal is not listed, and nothing if it lost the race |
| `NatsRegistry.UpsertDenotes` | pkg/exoskeleton/registrar_nats.go:192-212 | on distinct users, upsert is a map update |
| `NatsRegistry.RemovedDenotes` | pkg/exoskeleton/registrar_nats.go:136-148 | on distinct users, removal is a map deletion, and the length tells whether the user was listed |
| `NatsRegistry.DecideRefines` | pkg/exoskeleton/registrar_nats.go:124-228 | one call on the text is one update or deletion on the map it stands for, and nothing is written exactly if there is nothing to remove |
| `NatsRegistry.RegistryRuns` | pkg/exoskeleton/registrar_nats.go:124-228 | over every interleaving from no ConfigMap, the text stands for the map the completed calls leave, users unique and sorted; each call takes effect once if it succeeds and otherwise not |
| `NatsRegistry.RegisteredLatest` | pkg/exoskeleton/registrar_nats.go:221-228 | a principal's permission is the prefix of its latest registration, and it is absent if none or removed since |
| `Tenancy.TenantIsClean` | pkg/exoskeleton/identity.go:46-58 | identities compiled from plain names pass through the text unescaped |
| `Tenancy.OwnPrefixOnly` | pkg/exoskeleton/registrar_nats.go:221-228 | whoever registers, a tenant's principal is granted exactly the tenant's own prefix |
| `Psa.EnsurePSACompliance` | pkg/tools/deploy.go:400-416 | the in-place loops harden each manifest as specified |
| `Psa.EnsurePodSpecPSA` | pkg/tools/deploy.go:420-492 | pod defaults, both container lists and the shared volume |
| `PsaValidation.ValidatePSA` | pkg/k8s/psa.go:90-229 | the loops report the violations of every workload, none on a privileged level |
| `PsaPlaces.WorkloadsHardened` | pkg/tools/deploy.go:400-463 | at the literal places of a Deployment, Job or CronJob both container lists are hardened and both pod defaults set; no other kind is touched or reported |
| `PsaPlaces.ContainersHardened` | pkg/tools/deploy.go:439-444 | the five defaults of a container, each only where nothing was said and there is room |
| `PsaPlaces.ScratchSpace` | pkg/tools/deploy.go:446-491 | the one mount and the one volume added for /tmp, and where |
| `PsaPlaces.WorkloadsReported` | pkg/k8s/psa.go:93-201 | check by check, a report names a container exactly if one under that label, in either list, is bad in that respect |
| `PsaValidation.HardenedViolations` | pkg/tools/deploy.go:400-492 | on a hardened manifest of any shape the validator reports exactly the author's own faults: a bad value, or a non-object where a default belongs |
| `PsaValidation.HardenedPasses` | pkg/tools/deploy.go:396-416 | a hardened manifest passes exactly when no container is at fault for what the author wrote |
| `PsaValidation.UnsetPasses` | pkg/tools/deploy.go:396-416 | a workload that leaves the checked fields unset passes, whatever else its security contexts say |
| `PsaValidation.SilentPasses` | pkg/tools/deploy.go:396-444 | in particular a workload without any security context passes, and each of its containers gets every default |
| `PsaHardening.HardenTwice` | pkg/tools/deploy.go:396-500 | hardening is idempotent on every tree |
| `PsaHardening.HardenExtends` | pkg/tools/deploy.go:396-500 | nothing the author wrote is changed exactly when the lists appended to are lists |
| `PsaHardening.VolumesOverwritten` | pkg/tools/deploy.go:474-491 | a manifest whose mistyped volumes are replaced by the /tmp volume |
| `PsaHardening.TmpMounts` | pkg/tools/deploy.go:446-491 | every read-only container has a /tmp mount, and every mount added names a volume of the same pod spec |
| `WorkflowApply.Cluster.HandleWorkflowApply` | pkg/tools/deploy.go:510-619 | harden, validate, apply loop and garbage collection leave the specified store and counts |
| `WorkflowApply.Cluster.HandleWorkflowRemove` | pkg/tools/deploy.go:621-650 | removal leaves the specified store and count |
| `ApplyAcceptance.ApplyAccepted` | pkg/tools/deploy.go:510-589 | exactly which applies succeed: namespace, level, validation, and for each manifest apiVersion, one of nine kinds, a discovered type, a name and no failed request |
| `ApplyAcceptance.ApplyStops` | pkg/tools/deploy.go:534-589 | an apply that fails stops at the first manifest with a problem, with that error, having written those before |
| `ApplyAcceptance.ApplyRefused` | pkg/tools/deploy.go:511-529 | what is refused at the door, with which error, leaves the cluster alone |
| `ApplyAcceptance.ApplyStores` | pkg/tools/deploy.go:547-589 | after success each manifest is stored under its discovered type and name, hardened, in the namespace, with the release among its labels |
| `ApplyAcceptance.KnownTypes` | pkg/tools/deploy.go:590-615 | the nine resource types garbage collection goes through |
| `ApplyProperties.KeyTextInjective` | pkg/tools/deploy.go:391-394 | resource keys identify resources of slash-free types |
| `ApplyProperties.PreparedKeeps` | pkg/tools/deploy.go:552-559 | a sent manifest gains namespace and release label and loses nothing |
| `ApplyProperties.ApplyWrites` | pkg/tools/deploy.go:531-589 | the apply loop writes a prefix of the manifests, all unless it fails, counting each once |
| `ApplyProperties.ApplyReconciles` | pkg/tools/deploy.go:531-619 | after success the release labels exactly the manifests plus what collection could not reach, unrelated resources are untouched, and the counts add up |
| `ApplyProperties.FailedApplyKeeps` | pkg/tools/deploy.go:534-589 | a failed apply deletes nothing and has written a prefix of the manifests |
| `ApplyProperties.ApplyTwice` | pkg/tools/deploy.go:510-619 | a second identical apply creates nothing, deletes nothing and changes no content |
| `ApplyProperties.RemoveClears` | pkg/tools/deploy.go:621-650 | removal leaves exactly the labelled resources it could not reach, none without failures |
| `ApplyProperties.ApplyThenRemove` | pkg/tools/deploy.go:510-650 | apply then remove leaves the cluster without the release and otherwise as it was |
| `ApplyProperties.ApplyRefusesFaults` | pkg/tools/deploy.go:515-529 | outside a privileged namespace an apply is refused, before any write, with exactly the author's faults |
| `Identity.NameChecksAgree` | pkg/exoskeleton/identity.go:79-90 | both copies of the enclave name check accept exactly the documented regular expression |
| `Identity.PrincipalsDiffer` | pkg/exoskeleton/identity.go:50 | principals tell tenants apart if namespaces hold no slash |
| `Identity.NatsUsersDiffer` | pkg/exoskeleton/identity.go:53 | NATS users tell tenants apart if namespaces hold no dot |
| `Identity.NamesReadBack` | pkg/exoskeleton/identity.go:46-58 | namespace and workflow read back from their places in principal, NATS user, NATS prefix and S3 prefix |
| `Identity.S3PrefixesDisjoint` | pkg/exoskeleton/identity.go:55 | no object key lies under the prefixes of two tenants with slash-free names |
| `Identity.NatsOverlap` | pkg/exoskeleton/identity.go:54 | two tenants share a NATS subject exactly when the tokens of one prefix the tokens of the other |
| `Identity.DotFreeTenantsApart` | pkg/exoskeleton/identity.go:54 | different tenants with dot-free workflows share no subject |
| `Identity.DottedTenantsOverlap` | pkg/exoskeleton/identity.go:54 | a workflow and any dotted extension of its name do share subjects |
| `Identity.PgNamesValid` | pkg/exoskeleton/identity.go:172-194 | roles and policies are at most 63 characters of [a-z0-9_] and start with tn_ |
| `Identity.RolesEqual` | pkg/exoskeleton/identity.go:168-194 | exactly when two tenants share a role, and when a policy, for all names of any length |
| `Identity.ShortRolesEqual` | pkg/exoskeleton/identity.go:168-182 | uncut names are shared exactly by tenants that read the same once folded to [a-z0-9-] and joined |
| `Identity.LongRolesEqual` | pkg/exoskeleton/identity.go:184-194 | cut names exactly when 51 characters of that and the digests agree |
| `Identity.RolesApart` | pkg/exoskeleton/identity.go:168-182 | within one namespace, or namespaces without hyphens and underscores, uncut names are shared exactly if the tenants fold to the same |
| `Identity.LabelRolesApart` | pkg/exoskeleton/identity.go:168-182 | on names over [a-z0-9-] of one namespace, exactly if they are the same |
| `Identity.PgRolesCollide` | pkg/exoskeleton/identity.go:168-182 | moving a hyphenated part from workflow to namespace gives the same role and policy, for all names |
| `Identity.FoldedRolesCollide` | pkg/exoskeleton/identity.go:168-176 | workflow names that differ in letter case, in dots, or by an underscore for a hyphen share role and policy, for all names |
| `Identity.EnclavesApart` | pkg/exoskeleton/identity.go:124-135 | distinct valid enclaves have distinct accounts, databases up to 60 characters and buckets up to 52; all within 63 |
| `Identity.LongDatabases` | pkg/exoskeleton/identity.go:184-194 | longer names share a database exactly when their first 51 characters and their digests agree |
| `Identity.LongBuckets` | pkg/exoskeleton/identity.go:196-210 | longer names share a bucket exactly when their first 43 characters and their digests agree |
| `Identity.EnclaveNames` | pkg/exoskeleton/identity.go:124-135 | account and short bucket hold the enclave name, and buckets stay within [a-z0-9-] |
| `Mode.ParseMode` | pkg/authz/mode.go:85-117 | the table loop accepts exactly the regular expression and returns the mask |
| `Mode.RenderParse` | pkg/authz/mode.go:62-117 | printing a parsed string gives it back |
| `Mode.ParseRender` | pkg/authz/mode.go:62-117 | parsing a printed mask gives it back on exactly the nine-bit masks |
| `Mode.GrantsReadString` | pkg/authz/mode.go:35-60 | each accessor reads the letter at its place of the string |
| `Evaluator.CheckEnclave` | pkg/authz/evaluator.go:82-130 | the enclave decision, member loop included |
| `Evaluator.CheckTentacle` | pkg/authz/evaluator.go:144-194 | the two-layer decision |
| `Evaluator.ClosedCases` | pkg/authz/evaluator.go:82-97 | a missing or disabled evaluator and a platform operator are always allowed, a caller without identity never, an OIDC caller outside an enclave only as its named owner and only at the tentacle layer |
| `Evaluator.EnclaveIff` | pkg/authz/evaluator.go:98-130 | with a readable mode the decision of an OIDC caller on an enclave, down to the letter of the mode text, with its reason |
| `Evaluator.TentacleLetters` | pkg/authz/evaluator.go:158-194 | the same at the tentacle layer |
| `Evaluator.TentacleIff` | pkg/authz/evaluator.go:144-254 | an OIDC caller on an enclave is allowed exactly as enclave owner or by the class bits of both layers; without readable modes, exactly as owner or member |
| `Evaluator.TentacleImpliesEnclave` | pkg/authz/evaluator.go:144-167 | the tentacle layer implies the enclave layer exactly when the namespace is an enclave or the caller is not its named owner |
| `Evaluator.SpellingDoesNotMatter` | pkg/authz/evaluator.go:106-127 | decisions ignore letter case of e-mails and depend on members only as a set |
| `Evaluator.NormalFormDecides` | pkg/authz/evaluator.go:184-190 | rewriting the member text in normal form changes no decision |
| `Ownership.AnnotateDeployer` | pkg/exoskeleton/enrich.go:783-856 | the loop annotates every Deployment and nothing else |
| `Ownership.UpdateKeepsFrozen` | pkg/exoskeleton/enrich.go:812-823 | an update keeps every stored ownership fact and takes a missing one from the manifest |
| `Ownership.UpdateMode` | pkg/exoskeleton/enrich.go:824-834 | who sets the mode on an update, and which mode results |
| `Ownership.FrozenForLife` | pkg/exoskeleton/enrich.go:783-856 | no sequence of deploys changes a recorded owner, subject, e-mail, name or creation time |
| `Ownership.ModeForLife` | pkg/exoskeleton/enrich.go:824-834 | a recorded mode of an owned Deployment changes only by a bearer-token caller or the recorded owner |
| `Ownership.CreatorForLife` | pkg/exoskeleton/enrich.go:783-856 | whoever creates a Deployment stays its recorded owner over every later deploy by anyone |
| `Ownership.UpdateDetermines` | pkg/exoskeleton/enrich.go:783-838 | what every annotation is after an update: stamped, stored, set by whoever may, or the manifest's |
| `Ownership.CreateDetermines` | pkg/exoskeleton/enrich.go:806-851 | what every annotation is after a create |
| `Egress.PatchNetworkPolicyExoEgress` | pkg/exoskeleton/enrich.go:193-325 | the patch visits credentials in any order, and its result is the same for every enumeration |
| `Egress.OrderDoesNotMatter` | pkg/exoskeleton/enrich.go:233-252 | the sorted endpoints do not depend on the enumeration |
| `Egress.RulesServe` | pkg/exoskeleton/enrich.go:254-320 | one rule, in name order, for each endpoint with a numeric port that is in-cluster or resolvable |
| `Egress.RulesAdmit` | pkg/exoskeleton/enrich.go:254-320 | the added rules admit a destination and port exactly when an endpoint needs it: its namespace or a resolved address, on its port |
| `Egress.InClusterHosts` | pkg/exoskeleton/enrich.go:414-432 | the in-cluster test accepts exactly three spellings of a service name, and takes its namespace |
| `Egress.PortsRead` | pkg/exoskeleton/enrich.go:255-260 | ports read as the decimal numbers they denote, within 64 bits |
| `Egress.OnlyItsPolicy` | pkg/exoskeleton/enrich.go:196-216 | both patches touch at most the first NetworkPolicy named after the workflow |
| `Egress.PatchAppends` | pkg/exoskeleton/enrich.go:193-325 | only the workflow's own policy changes, only in its egress list, whose rules stay in front |
| `Egress.PatchNetworkPolicyOTelEgress` | pkg/exoskeleton/enrich.go:627-707 | the loops find the policy, skip it if a rule names a collector port, and otherwise append one rule |
| `Egress.OTelEgressOnce` | pkg/exoskeleton/enrich.go:623-707 | the collector rule is added once on every manifest list, after the existing rules, to no other manifest |
| `Egress.OTelSkips` | pkg/exoskeleton/enrich.go:644-668 | a settable policy is left alone exactly if a rule of it names port 4317 or 4318 |
| `Egress.OTelRuleAdmits` | pkg/exoskeleton/enrich.go:670-696 | the collector rule admits the observability namespace on ports 4317 and 4318 and nothing else |
| `AllowFlags.PatchAllowEnvInSlice` | pkg/exoskeleton/enrich.go:573-622 | the loops over arguments and variables rewrite the first flag as specified, and report whether they did |
| `AllowFlags.PatchAllowNetInSlice` | pkg/exoskeleton/enrich.go:327-359 | the same for hosts, which are appended without a look at those present |
| `AllowFlags.PatchGrants` | pkg/exoskeleton/enrich.go:327-622 | a patch grants exactly its hosts, or its missing variables, after what was granted; every other argument and the other flag stay; when it applies at all |
| `AllowFlags.PatchDeploymentOTelEnv` | pkg/exoskeleton/enrich.go:525-571 | the first Deployment's first container gets both patches, arguments before command, in one or two writes |
| `AllowFlags.TelemetryPlace` | pkg/exoskeleton/enrich.go:525-571 | only the first Deployment changes, in the first of its containers at their literal place |
| `AllowFlags.ArgsBeforeCommand` | pkg/exoskeleton/enrich.go:543-568 | arguments are tried before the command, and one of them at most is rewritten |
| `AllowFlags.TelemetryExample` | pkg/exoskeleton/enrich.go:502-571 | a container's arguments before and after, text by text |
| `AllowFlags.TelemetryTwice` | pkg/exoskeleton/enrich.go:519-571 | twice is once exactly on containers without `--allow-net=` whose arguments and command do not both miss a variable |
| `AllowFlags.OTelManifestsTwice` | pkg/exoskeleton/enrich.go:519-571 | the same condition on whole manifest lists |
| `AllowFlags.CollectorListedTwice` | pkg/exoskeleton/enrich.go:519-571 | a container on which a second pass lists the collector again |
| `AllowFlags.TelemetryGrants` | pkg/exoskeleton/enrich.go:525-571 | no grant is lost, and the set of granted hosts is the same after a second pass |
| `AllowNet.CollectExoHosts` | pkg/exoskeleton/enrich.go:379-403 | the sorted hosts are the same for every enumeration of the credentials, repetitions included |
| `AllowNet.PatchDeploymentAllowNet` | pkg/exoskeleton/enrich.go:147-187 | the patched manifests are the same for every enumeration |
| `AllowNet.AllowNetGrants` | pkg/exoskeleton/enrich.go:147-187 | exactly the credential hosts join the grants of one container of one Deployment; nothing else changes |
| `AllowNet.FlagMatchesPolicy` | pkg/exoskeleton/enrich.go:226-403 | flag hosts and policy endpoints come from the same credentials, up to Postgres credentials with an empty part, whose hosts are listed too |
| `AllowNet.NoHostsNoChange` | pkg/exoskeleton/enrich.go:147-151 | credentials without a known service change nothing |
| `Scheduler.Scheduler.RegisterWorkflow` | pkg/scheduler/scheduler.go:78-110 | a registration updates index and cron table as specified and reports failure exactly on an unparsed new schedule |
| `Scheduler.Scheduler.DeregisterWorkflow` | pkg/scheduler/scheduler.go:113-123 | removal of entry and job |
| `Scheduler.OthersStay` | pkg/scheduler/scheduler.go:78-123 | a call leaves the entry and the job of every other workflow as they were |
| `Scheduler.RegistersWorkflow` | pkg/scheduler/scheduler.go:78-110 | a registration that parses leaves the workflow indexed with its schedule, and live unless it was dead with it; one that does not changes no entry |
| `Scheduler.DeregistersWorkflow` | pkg/scheduler/scheduler.go:113-123 | a deregistration leaves neither entry nor job |
| `Scheduler.IndexedLatest` | pkg/scheduler/scheduler.go:78-123 | over runs a workflow is indexed exactly if registered and not deregistered since, with the latest schedule that parsed |
| `Scheduler.RunsStaySound` | pkg/scheduler/scheduler.go:78-123 | in every run each live job is owned by exactly one entry and no workflow has two jobs |
| `Scheduler.LiveAfter` | pkg/scheduler/scheduler.go:84-107 | exactly which entries have a live job after a call |
| `Scheduler.RunsStayLive` | pkg/scheduler/scheduler.go:78-123 | throughout a run every entry has a live job with its schedule, exactly when no call is a failed schedule change |
| `Scheduler.FailedChangeSticks` | pkg/scheduler/scheduler.go:84-100 | a failed change leaves a dead entry that registering the old schedule does not revive |

## Left out

- Kubernetes, Postgres, NATS, S3 and HTTP clients, timeouts, contexts and logging: stores and parameters stand for them.
- OIDC validation, request authentication and the tool registration around the handlers (pkg/auth): the caller is a parameter.
- Unicode: letter case, white space and quoting are modelled on ASCII; other characters count as unchanged, as no space, and as printable.
- Aliasing: manifests and annotation maps are changed in place in Go; here each method reassigns a value, so sharing of one map between two manifests is not captured.
- EnclaveSync.HandleEnclaveSync: another client's write to a Deployment during the call shows as a failed update of it, not as new content; the contents of the resource quota and the list of updated field names in the reply are not modelled.
- Provision.Server.HandleEnclaveProvision: one provision runs at a time, except in `ConcurrentProvisions`. The exoskeleton cleanup of the rollback is a stub in the source and has no effect here.
- WorkflowApply.Cluster.HandleWorkflowApply: no other client writes during one apply; an update conflict is one of the failures; server-managed fields such as the resource version are not stored.
- Mode.ParseMode: a mask is the set of its one-bits instead of a 16-bit word.
- Annotation keys are constructors instead of strings; the source uses distinct constants for them.
- Sorting of entries with equal users: `sort.Slice` promises no order among them, the model keeps their order.
- YAML and JSON decoding, `enrichContractDeps`, URL parsing in `parseHostPort` and DNS lookup: their results are inputs.
- Provision.Server.HandleEnclaveDeprovision: the deletion of single Deployments and the cleanup of services before the namespace goes are best effort in the source and have no effect here.
- The workflow label and the SPIRE volume of a Deployment: single edits without further invariants.
- Enclave and tentacle identities of `CompileTentacleIdentity`, presets, cluster profile, audit, health, discovery, proxy and module prewarm tools: easy members only.
