# A verified model of the Keycloak operator's reconcile core

The operator keeps Keycloak resources (realms, clients, client scopes, realm
roles, identity providers and groups) in line with Kubernetes custom resources.
This project models the part that decides what to write, and proves what its
documentation promises about it: that nothing recorded and then removed is
forgotten, that nothing unowned is touched, that a pass which reports success has
told the truth, and that a second pass has nothing left to do. Where one of these
promises does not hold of the code, the condition under which it does is proved,
and a world in which it fails is given.

The modules follow the program:

| file | what it covers |
|---|---|
| `Wrappers.dfy`, `Json.dfy` | optional values, JSON values as a datatype |
| `ListMatching.dfy` | the greedy list comparison as first-fit on a matrix, and when its verdict depends on order |
| `LastApplied.dfy`, `PayloadLaws.dfy` | the diff and merge of JSON payloads, as loops and as specification, and their laws |
| `PayloadMeaning.dfy` | what agreement and payloads mean, said without the functions that compute them |
| `Drivers.dfy` | bookkeeping fields, managed markers, secret injection, the two payload pipelines |
| `HeapPayload.dfy` | the same payload operations in place on mutable maps and lists, with footprints |
| `Calls.dfy`, `Engine.dfy`, `EngineCode.dfy` | one reconcile pass as a function of every call's outcome, and as code that updates the object and the server step by step and runs the enforcers |
| `EngineLaws.dfy`, `PassLaws.dfy`, `Runs.dfy`, `Conditions.dfy`, `NestedOwnership.dfy` | what one pass, two passes and whole runs keep, and what the stored conditions mean |
| `EndToEnd.dfy` | from the spec to the server: what reaches it, progress, protection and the reasons of failures |
| `Findings.dfy`, `SecretRotation.dfy`, `Rivals.dfy`, `Instances.dfy` | promises that fail, with their conditions and worlds in which they fail |
| `ScopeAssignments.dfy`, `RoleMappings.dfy`, `RoleEnforcers.dfy`, `GroupMappings.dfy`, `IdpMappers.dfy` | the set enforcers, call by call, with failures at any call |
| `GoalMeaning.dfy` | what desired collections are, in terms of the scopes, roles and clients of the realm |
| `PostProcessing.dfy` | the enforcers as the engine sees them: what they can leave of the collections, and when that is what the spec asks for |
| `ConnectionCache.dfy` | the connection cache under concurrent calls |
| `TokenClient.dfy` | the token cache and the single retry under concurrent calls |

Failures are everywhere. In the engine an environment value gives the outcome of
every external call: done, not done, refused, or done although it was reported
as failed. A pass cut short by a crash leaves the same state as one whose
remaining calls all fail. In the enforcers each call picks its own outcome, and
the iteration order of Go maps is left open. The server is the repository's own
fake: an update overlays what is stored, a create on an existing key conflicts.

Where code and documentation disagree the model follows the code:

- Removed fields are said to be left out of the payload
  (`docs/design.md:64-67`); the code sends zero values for strings, booleans,
  lists and maps, and nothing for numbers.
- Every removed field is said to be reset (`docs/getting-started.md:129`); a field
  written by a pass that then failed to record it is forgotten as soon as the
  spec drops it (`Runs.ResetPendingIff`, `Instances.LostReset`).
- `docs/troubleshooting.md:80` lists maps among the values a removal resets; an
  empty object agrees with every object, so removing only maps is never sent
  (`Findings.ObjectRemovalForgottenIff`).
- Foreign resources are said never to be touched under CreateOnly
  (`docs/design.md:75`); an annotation recorded under another natural key counts
  as ownership (`PassLaws.ForeignUntouchedIff`), and deletion asks for no marker
  (`Findings.DeletionSparesIff`).
- Lists of scopes are said to be enforced exactly (`docs/crd-reference.md:182-183`);
  a scope or mapper that shares its name with another can stay, and is reported
  as synced (`EngineLaws.SettledIff`, `PassLaws.FixpointIff`).
- Keys inside a map that the spec does not mention are said not to be enforced
  (`internal/controller/lastapplied.go:119-122`); any update replaces the map
  whole and drops them (`NestedOwnership.EntryLivesUntilUpdate`).
- A Secret is said to be rotated by changing it (`docs/troubleshooting.md:94`); a
  value the server masks matches every new one, so nothing is sent
  (`SecretRotation.RotationSentIff`).
- CreateOnly is said to refuse what the operator did not create; the marker names
  no owner, so a second custom resource takes the first one's resource over, and
  the two can rewrite it for ever (`Rivals.FightForeverIff`).
- Dropping a deleted connection from the cache is meant to keep no credentials
  in memory (`internal/keycloak/provider.go:68-69`); a call in flight puts them
  back (`ConnectionCache.DroppedReturnsIff`).

## Model

| member | source | states |
|---|---|---|
| `ListMatching.GreedyComplete` | internal/controller/lastapplied.go:133-158 | where overlapping desired elements meet the same remote ones, first-fit succeeds as soon as any pairing exists |
| `ListMatching.OrderInsensitiveIff` | internal/controller/lastapplied.go:133-158 | first-fit gives one verdict for all orders of both lists if and only if no pairing exists or overlapping rows are equal |
| `ListMatching.SeparatedExact` | internal/controller/lastapplied.go:133-158 | under that condition the verdict is exactly the existence of a pairing |
| `LastApplied.MergePayload` | internal/controller/lastapplied.go:74-83 | the loop computes the overlay: payload keys win, null removes, other keys stay |
| `LastApplied.EffectivePayload` | internal/controller/lastapplied.go:32-52 | the loop computes the spec plus one reset for every recorded field the spec dropped, and fails on an unreadable annotation |
| `LastApplied.PayloadDiffers` | internal/controller/lastapplied.go:94-117 | the loop decides whether some payload key disagrees, with absent, null and zero values told apart |
| `LastApplied.ManagedValueEqual` | internal/controller/lastapplied.go:125-164 | the recursion decides when a desired value is met: objects on desired keys only, lists up to order, scalars exactly or masked |
| `LastApplied.ListsEqual` | internal/controller/lastapplied.go:133-158 | the loop with its array of used positions is first-fit on the matrix of matches |
| `LastApplied.FindUnused` | internal/controller/lastapplied.go:142-152 | the inner loop finds the first position that is free and matches |
| `PayloadMeaning.AgreementShows` | internal/controller/lastapplied.go:94-164 | a field agrees only if the server shows the wanted value: the scalar itself or the mask, every entry of an object, a partner for every list element, absence for an empty value; and exactly then if no list has more than one element |
| `PayloadMeaning.NoDifferenceShows` | internal/controller/lastapplied.go:94-117 | the same for whole payloads |
| `PayloadMeaning.ScalarDiffersIff` | internal/controller/lastapplied.go:112-114 | a string, number or true differs if and only if the server shows neither it nor the mask |
| `PayloadMeaning.PartnersIff` | internal/controller/lastapplied.go:125-164 | what makes two list elements partners |
| `PayloadMeaning.EffectiveIff` | internal/controller/lastapplied.go:32-69 | key by key what is enforced: the spec's value, the empty value of a dropped string, boolean, list or object, nothing for a dropped number |
| `LastApplied.ZeroFor` | internal/controller/lastapplied.go:56-69 | strings, booleans, lists and objects, and nothing else, have a reset value: the zero value of their own type |
| `LastApplied.Resets` | internal/controller/lastapplied.go:42-51 | exactly the dropped fields that have a reset value, never a field of the spec |
| `PayloadLaws.MatchesItself` | internal/controller/lastapplied.go:125-164 | every JSON value matches itself |
| `PayloadLaws.OverlayAgrees` | internal/controller/lastapplied.go:74-117 | a representation just merged with a payload never differs from it |
| `PayloadLaws.ShrinkKeepsMatch` | internal/controller/lastapplied.go:125-164 | dropping object keys at any depth, inside list elements too, keeps a match, unless the smaller elements of a list overlap on the remote list |
| `PayloadLaws.ShrinkKeepsAgreement` | internal/controller/lastapplied.go:94-164 | the same for whole payloads |
| `PayloadLaws.ListShrinkIff` | internal/controller/lastapplied.go:133-158 | a list with shrunk elements is still met in every order of the two lists if and only if the smaller elements do not overlap |
| `PayloadLaws.ObjectsUnambiguous` | internal/controller/lastapplied.go:125-131 | where only objects outside lists lose keys, nothing can overlap |
| `PayloadLaws.ShrinkInsideListDiffers` | internal/controller/lastapplied.go:133-158 | the smallest lists for which shrinking creates a difference |
| `PayloadLaws.ShrinkInsideListOverlaps` | internal/controller/lastapplied.go:133-158 | those lists overlap |
| `PayloadLaws.ListMatchSound` | internal/controller/lastapplied.go:133-158 | a positive verdict comes with a one-to-one pairing of matching elements |
| `PayloadLaws.ListMatchComplete` | internal/controller/lastapplied.go:133-158 | the verdict is exactly pairability when desired elements do not overlap |
| `PayloadLaws.AtMostOneNoOverlap` | internal/controller/lastapplied.go:133-158 | that covers lists in which each desired element matches at most one remote element |
| `PayloadLaws.OrderDoesNotMatterIff` | internal/controller/lastapplied.go:119-158 | the comparison ignores order if and only if no pairing exists or desired elements do not overlap |
| `PayloadLaws.GreedyIncomplete` | internal/controller/lastapplied.go:133-158 | the smallest pair of lists reported as different although a pairing exists |
| `PayloadLaws.ScalarListsAreMultisets` | internal/controller/lastapplied.go:133-158 | on scalar lists without masked remote values the verdict is multiset equality |
| `PayloadLaws.ResetAgreementIsReal` | internal/controller/lastapplied.go:56-117 | for strings, booleans and lists, agreement with the reset value means the server holds the field absent, zero or masked, and nothing else |
| `PayloadLaws.ObjectResetAgreesIff` | internal/controller/lastapplied.go:56-69 | the reset of an object agrees with a remote field if and only if that is missing or an object |
| `PayloadLaws.ObjectRemovalUnseen` | internal/controller/lastapplied.go:32-117 | removing only objects, numbers and nulls from a spec the server agrees with is no difference |
| `Drivers.ReadSecretValues` | internal/controller/driver_helpers.go:102-116 | the loop gives every target name the value of the key it is mapped to, or fails exactly when one of those keys is missing |
| `Drivers.HoldsMarker` | internal/controller/driver_helpers.go:70-82 | the loop finds the marker value in a list |
| `Drivers.PipelinesAgree` | internal/controller/engine.go:210-283 | inject-then-stamp and stamp-then-inject give the same payload for every kind and input |
| `Drivers.PipelineFrame` | internal/controller/engine.go:210-283 | every key but the marker and injection keys of the kind passes through unchanged |
| `Drivers.PipelineNulls` | internal/controller/driver_helpers.go:36-55 | the pipeline introduces no null entry |
| `Drivers.WrittenIsManaged` | internal/controller/driver_helpers.go:36-82 | a written payload is recognised as managed for the five marker kinds, whatever the spec says about attributes, also after merging |
| `PayloadMeaning.PayloadIff` | internal/controller/engine.go:276-283 | the pipeline computes exactly one payload: the spec's fields and attributes unchanged, the marker beside them as a string or as one more list element, the values of the Secret in their place beside the spec's own entries, and nothing else |
| `PayloadMeaning.RecognisedIff` | internal/controller/driver_helpers.go:59-82 | a resource is recognised if and only if its attributes hold the marker string, or a list with it; identity providers never are |
| `HeapPayload.DeepCopyMap` | internal/controller/lastapplied.go:189-195 | the copy has the same value and consists of new nodes only |
| `HeapPayload.DeepCopyValue` | internal/controller/lastapplied.go:197-210 | the same for nested values |
| `HeapPayload.StampStringAttribute` | internal/controller/driver_helpers.go:36-43 | in place: the map now denotes the stamped value, and it grew by new nodes only |
| `HeapPayload.StampSliceAttribute` | internal/controller/driver_helpers.go:47-55 | the same for list-valued attributes, appending to the existing list |
| `HeapPayload.InjectAll` | internal/controller/driver_realm.go:85-92 | the injection loop writes every value into the nested map and keeps the footprint |
| `HeapPayload.EffectiveCopy` | internal/controller/lastapplied.go:32-52 | the effective payload shares no node with the spec snapshot |
| `HeapPayload.CreateBody` | internal/controller/engine.go:180-216 | after copying, resetting, injecting and stamping in place, the snapshot still has its value, and the payload is the specified one |
| `HeapPayload.UpdateBody` | internal/controller/engine.go:180-287 | the same in the order of the update path |
| `HeapPayload.CloneMap` | internal/controller/engine.go:413-419 | only the top node is new |
| `HeapPayload.MergedBody` | internal/controller/engine.go:290-291 | merging into the shallow clone leaves the remote representation and the payload unchanged |
| `PostProcessing.RunEnforcer` | internal/controller/engine.go:238-309 | the enforcer of the kind, run on the collections the server holds, ends only in the ways the engine reckons with: what it leaves follows its contract, and it writes exactly if there is something to write |
| `PostProcessing.SuccessIsExactIff` | internal/controller/driver_role_idp_group.go:231-475 | a success leaves every collection as desired if and only if no unwanted scope and no mapper hides behind another of its name |
| `GoalMeaning.ClientGoalIff` | internal/controller/driver_helpers.go:164-239 | scopes are as desired if and only if each declared list is exactly the names of the assigned scopes |
| `GoalMeaning.RoleGoalSays` | internal/controller/driver_role_idp_group.go:88-152 | members as desired: exactly the ids of the declared realm roles and of the declared roles of each client, all of which exist |
| `GoalMeaning.GroupGoalSays` | internal/controller/driver_role_idp_group.go:364-475 | mappings as desired: exactly the ids of the declared realm roles, exactly the listed roles of every listed client, nothing for the others |
| `GoalMeaning.MapperGoalSays` | internal/controller/driver_role_idp_group.go:229-284 | mappers as desired: exactly the declared ones, each with its type and configuration |
| `PostProcessing.GoalIsStill` | internal/controller/driver_role_idp_group.go:137-139 | collections that are as desired are left alone in any listing order, whatever fails |
| `PostProcessing.StillAfterSuccessIff` | internal/controller/driver_role_idp_group.go:251-283 | a success leaves nothing to write for a later listing if and only if no ambiguous name comes up again |
| `EngineCode.Controller.SetCondition` | internal/controller/engine.go:362-393 | one condition is set in memory; a lost patch changes nothing stored, a later one carries both conditions |
| `EngineCode.Controller.FailPass` | internal/controller/engine.go:378-387 | both conditions are reported through two patches that can be lost separately |
| `EngineCode.Controller.EnforceCollections` | internal/controller/engine.go:305-309 | post-processing on the server's own listing, by the real enforcers, has an outcome the laws cover |
| `EngineCode.Controller.RecordAndReport` | internal/controller/engine.go:319-346 | the annotation is patched only when it changes, and success is reported only after it was stored |
| `EngineCode.Controller.CreateResource` | internal/controller/engine.go:206-244 | the steps of a create have the specified outcome under every combination of call outcomes |
| `EngineCode.Controller.UpdateResource` | internal/controller/engine.go:246-315 | the same for adoption and update |
| `EngineCode.Controller.DeleteResource` | internal/controller/engine.go:348-359 | the same for deletion: release only after the delete returned success or not found |
| `EngineCode.Controller.ReconcileObject` | internal/controller/engine.go:107-204 | the whole pass, enforcer calls included, is the pass function at an environment in which post-processing ended as the enforcers made it end |
| `EngineLaws.PassShape` | internal/controller/engine.go:107-346 | an undisturbed pass touches its own key only: nothing, a create, an overlay of the payload, or the deletion, then collections |
| `EngineLaws.PutAgreesIff` | internal/controller/engine.go:290-291 | an update is effective unless a null entry asks for the removal of a key the server holds |
| `EngineLaws.SettledIff` | internal/controller/engine.go:305-314 | a successful pass leaves every collection as desired if and only if no name was ambiguous |
| `EngineLaws.RepTruthful` | internal/controller/engine.go:285-303 | and the representation agreeing with the payload if and only if no such null entry was there |
| `EngineLaws.SyncedIsTruthful` | internal/controller/engine.go:206-346 | both together, for every pass that ends in success, on the create, adopt, update and no-change paths alike |
| `EndToEnd.SpecReachesServer` | internal/controller/engine.go:168-314 | after a successful pass the server shows every field of the spec that is not bookkeeping, whatever its name and kind |
| `EndToEnd.AttributesReachServer` | internal/controller/driver_helpers.go:36-55 | and every attribute of the spec beside the marker |
| `EndToEnd.SecretReachesServer` | internal/controller/driver_realm.go:76-94 | and every value of the Secret, with the spec's own entries beside them |
| `EndToEnd.ClientSecretReachesServer` | internal/controller/driver_client.go:88-99 | and the client secret |
| `EndToEnd.SuccessRecordsSpec` | internal/controller/engine.go:319-334 | a successful pass has recorded exactly the fields of the spec that are not bookkeeping, with their values |
| `EndToEnd.SuccessNeedsId` | internal/controller/driver_role_idp_group.go:366-370 | a client or group succeeds only with a non-empty id |
| `EndToEnd.CleanCreate` | internal/controller/engine.go:206-244 | a failure-free pass over a free key creates the resource and ends Ready and Synced |
| `EndToEnd.TwoPassesSettle` | internal/controller/engine.go:153-204 | a new object over a free key, a marked resource or one it may adopt is settled by two failure-free passes |
| `EndToEnd.CleanDeletion` | internal/controller/engine.go:348-359 | a failure-free pass over an object being deleted releases it and removes its resource, or keeps it under Orphan |
| `EndToEnd.OrphanNeedsNoServer` | internal/controller/engine.go:126-135 | under Orphan without a connection |
| `EndToEnd.AdoptionMarks` | internal/controller/engine.go:263-303 | adopting a foreign resource always updates it, so that it carries the marker |
| `EndToEnd.ProtectedIff` | internal/controller/driver_realm.go:103-112 | a pass is refused as protected if and only if it is for the realm master without the annotation |
| `EndToEnd.MasterUntouched` | internal/controller/driver_realm.go:103-112 | no run without a deletion request writes to or records anything for it |
| `EndToEnd.ReasonIff` | internal/controller/engine.go:137-309 | which failure ends a pass, for every combination of call outcomes, and that both conditions give its reason |
| `Conditions.SyncedIff` | internal/controller/engine.go:107-346 | after any pass Synced is stored as true if and only if the pass succeeded and its second patch was stored, or it was true before and the pass wrote no Synced or lost that patch; success is characterised by the calls that must go through |
| `Conditions.ReadyIff` | internal/controller/engine.go:232-346 | the same for Ready |
| `Conditions.StoredSyncedIsTruthful` | internal/controller/engine.go:319-346 | through every run of failing and succeeding passes over one spec, a stored Synced that is true means the resource is converged now |
| `PassLaws.ConvergedIsQuiet` | internal/controller/engine.go:246-346 | from a converged state a pass writes nothing, whatever fails in it |
| `PassLaws.DoneConvergesIff` | internal/controller/engine.go:180-346 | a successful pass leaves a converged state if and only if no such null entry was there and no name was ambiguous |
| `PassLaws.NextPassIsQuiet` | internal/controller/engine.go:180-346 | after any such successful create, adoption or update, the next pass over the same spec writes nothing and keeps the annotation, whatever fails |
| `PassLaws.StillNextIff` | internal/controller/engine.go:305-314 | what a success leaves in the collections for the next pass: nothing, if and only if no ambiguous name comes up again |
| `PassLaws.FixpointIff` | internal/controller/engine.go:180-346 | a failure-free second pass is quiet if and only if no such null entry was there and no ambiguous name comes up again |
| `Instances.TwinScopesNeverSettle` | internal/controller/engine.go:305-346 | a client with two default scopes of one name, none wanted: Synced is stored as true with a scope still assigned, and the next pass writes again |
| `PassLaws.DifferenceIsWritten` | internal/controller/engine.go:285-303 | a recognised resource that differs is written to |
| `PassLaws.CleanVerdict` | internal/controller/engine.go:246-346 | a failure-free pass over an existing resource ends Ready and Synced if and only if policy and ownership allow, otherwise in AlreadyExists with nothing written |
| `PassLaws.InterruptedCreateResumesIff` | internal/controller/engine.go:214-274 | from every state left after a create reached the server, one failure-free pass ends Ready if and only if the policy is not FailIfExists and marker, annotation or Adopt allow it |
| `PassLaws.ForeignUntouched` | internal/controller/engine.go:190-274 | under CreateOnly and without annotation, an unmarked resource is not written, even one that appears between the read and the create |
| `PassLaws.ForeignUntouchedIff` | internal/controller/engine.go:261-274 | for every kind, an unmarked resource is left alone if and only if no annotation is recorded or there is nothing to change |
| `PassLaws.ReleaseIsSettled` | internal/controller/engine.go:129-160 | the finalizer goes away only on deletion, under Orphan or with the resource absent |
| `PassLaws.PassWritesLicensed` | internal/controller/engine.go:107-359 | every write is to the object's own key and made under the finalizer; deletions only for a deleted object |
| `Runs.QuietForever` | internal/controller/engine.go:180-346 | once converged, no run of passes over the same spec writes again |
| `Runs.NoResetIsLost` | internal/controller/lastapplied.go:32-69 | in every run with failures at arbitrary calls and spec edits, the removal of a recorded string, boolean or list leaves the annotation only when the server holds the field absent, null, zero or masked |
| `Runs.DoneResetsIff` | internal/controller/engine.go:285-334 | a successful pass over a removed field has reset it if and only if the removal was remembered or nothing was left to reset |
| `Runs.ResetPendingIff` | internal/controller/engine.go:319-346 | over every run, while the resource exists, a removal is remembered or done if and only if it was so when the field was removed; one that was not recorded is lost for good |
| `Instances.UnrecordedRemovalIsLost` | internal/controller/engine.go:331-333 | after every create whose recording failed, dropping a field before the next pass loses it while Synced is reported |
| `Instances.LostReset` | internal/controller/engine.go:331-333 | such a run from a fresh client scope |
| `Runs.NumberRemovalKeepsValue` | internal/controller/lastapplied.go:56-69 | a removed number keeps its server value |
| `Runs.FieldOwnership` | internal/controller/engine.go:285-291 | a top-level field no spec ever mentioned keeps its server value through every run of spec edits and passes |
| `Runs.OperatorFieldsNeverSent` | internal/controller/engine.go:168-181 | no payload of any run contains a bookkeeping field, not even through the annotation |
| `Runs.ForeignSafety` | internal/controller/engine.go:190-274 | over whole runs under CreateOnly the operator neither writes to nor records an unmarked resource |
| `Runs.WritesNeedFinalizer` | internal/controller/engine.go:129-160 | in every run, outside edits included, the server is written only while the stored object carries the finalizer |
| `Runs.GoneMeansAbsent` | internal/controller/engine.go:348-359 | with a fixed key and the Delete policy, an object that vanished after a write left no resource behind, through all retries |
| `Runs.VanishedLeavesNothing` | internal/controller/engine.go:129-160 | the same from the creation of the object on |
| `NestedOwnership.CleanKeepsEntryIff` | internal/controller/lastapplied.go:74-83 | an entry the spec does not manage, inside an object it does manage, survives a failure-free pass if and only if the resource does not differ |
| `NestedOwnership.PassKeepsEntryIff` | internal/controller/engine.go:285-303 | under any failures it survives a pass if and only if no update was sent |
| `NestedOwnership.EntryLivesUntilUpdate` | internal/controller/lastapplied.go:74-122 | over whole runs it keeps its value exactly until the first update |
| `Findings.EditSurvivesIff` | internal/controller/engine.go:290-291 | an outside edit of an unowned field between read and update, removals included, survives if and only if the field was absent when read or the edit left it as it was |
| `Findings.DeletionSparesIff` | internal/controller/engine.go:149-359 | in a pass over an object being deleted, whatever has the key, marked or not, survives if and only if the object is gone, the policy is Orphan, there is no connection, or the request did not take effect |
| `Findings.StaleWhenStopped` | internal/controller/engine.go:232-333 | a failed re-fetch after a create leaves Synced as it was, a failed annotation patch leaves both conditions |
| `Findings.ObjectResetsAgreeIff` | internal/controller/lastapplied.go:64-65 | for every kind and every object field, own fields of the pipeline included, the removal is no difference if and only if the marker list of a role or group does not get shorter |
| `Findings.UnreferencedAgreesIff` | internal/controller/driver_client.go:88-99 | when the reference to the Secret goes too, if and only if besides what the spec itself says under the injected field agrees with the server |
| `Findings.ObjectRemovalForgottenIff` | internal/controller/engine.go:287-334 | removing any object fields from a converged state, those that describe collections or refer to a Secret included, succeeds and records the edit; it sends nothing if and only if the payload goes unnoticed and the enforcers find the collections as the edit wants them |
| `Findings.CompositesRemovalIff` | internal/controller/driver_role_idp_group.go:97-150 | a role that no longer declares its members: silent if and only if it had none |
| `Instances.MembersRemovalIsSent` | internal/controller/driver_role_idp_group.go:97-150 | a converged role with one member, where the payload goes unnoticed and the members are cleared |
| `SecretRotation.PayloadRotationIff` | internal/controller/lastapplied.go:160-164 | new values of a Secret are a difference if and only if the server shows one that disagrees |
| `SecretRotation.RotationSentIff` | internal/controller/engine.go:280-303 | a failure-free pass after a rotation sends the new values if and only if that is so |
| `SecretRotation.MaskedRotationIsUnseen` | internal/controller/lastapplied.go:160-168 | a server that masks all of them never gets them |
| `Rivals.StrangerTakesOver` | internal/controller/engine.go:261-274 | a second object under CreateOnly and without annotation takes a resource over if and only if it carries the marker |
| `Rivals.UpdatesIff` | internal/controller/engine.go:285-303 | a failure-free pass over a recognised resource updates it if and only if it differs, and leaves the payload laid over it |
| `Rivals.FightForeverIff` | internal/controller/engine.go:285-303 | two objects over one key, taking turns, keep rewriting the resource for ever if and only if each manages a field on which the other's value does not do |
| `ScopeAssignments.AppendUnique` | internal/keycloak/fake/server.go:944-951 | appends a value unless it is there |
| `ScopeAssignments.RemoveValue` | internal/keycloak/fake/server.go:953-961 | removes every occurrence and keeps the rest in order |
| `ScopeAssignments.Assignments.Report` | internal/keycloak/fake/server.go:544-553 | the names of exactly the assigned scopes that exist |
| `ScopeAssignments.IndexByName` | internal/controller/driver_helpers.go:211-218 | the index resolves every listed name to its last entry |
| `ScopeAssignments.Assignments.Enforce` | internal/controller/driver_helpers.go:167-239 | success leaves the target set and reports a change exactly when the names differed; after any failing prefix nothing wanted is gone and nothing unwanted was added; it fails only on a failed call or an unknown name |
| `ScopeAssignments.ExactIff` | internal/controller/driver_helpers.go:220-237 | the target is exactly the desired names if and only if each unwanted assigned scope is the one its name resolves to |
| `ScopeAssignments.DuplicateNameStays` | internal/controller/driver_helpers.go:229-237 | two assigned scopes of one name: one stays, and the same removal is sent again without effect |
| `ScopeAssignments.UniqueNamesExact` | internal/controller/driver_helpers.go:167-239 | with unique scope names success is exact |
| `ScopeAssignments.PostApply` | internal/controller/driver_client.go:130-144 | default and optional scopes: declared lists reach their target, undeclared ones are untouched, changed is reported exactly if names differed and then a request was sent; nothing is sent when nothing differs |
| `RoleMappings.AppendUniqueReps` | internal/keycloak/fake/server.go:963-978 | appends the representations whose id the collection lacks |
| `RoleMappings.RemoveReps` | internal/keycloak/fake/server.go:980-995 | keeps, in order, the representations whose id is not named |
| `RoleMappings.RoleServer.ApplyRoleDiff` | internal/controller/driver_role_idp_group.go:479-522 | for any stale reading: the ids gain desired minus current and lose current minus desired; a failure stops in between; the flags tell whether the two sets differed |
| `RoleMappings.RoleServer.ResolveRoles` | internal/controller/driver_helpers.go:242-252 | exactly the ids of the named roles, or an error when one is missing |
| `RoleMappings.RoleServer.ResolveClientRoles` | internal/controller/driver_helpers.go:256-271 | the same for the roles of a client, which must exist |
| `RoleEnforcers.DiffExact` | internal/controller/driver_role_idp_group.go:479-522 | a diff against what the collection holds makes its string ids equal to the desired ones |
| `RoleEnforcers.EnforceComposites` | internal/controller/driver_role_idp_group.go:89-152 | success leaves exactly the declared members, none for a role not declared composite, and reports a change exactly when there was one; failures only move towards that |
| `GroupMappings.IndexByClient` | internal/controller/driver_role_idp_group.go:405-423 | for any document, nameless and doubled entries included: every entry's name is indexed, and to one of its entries |
| `GroupMappings.IndexDetermined` | internal/controller/driver_role_idp_group.go:405-423 | with distinct clients the index is the document, keyed by name |
| `GroupMappings.ClearUnlisted` | internal/controller/driver_role_idp_group.go:433-443 | clients no longer listed are emptied in any order; a failure leaves each emptied or untouched |
| `GroupMappings.EnforceListed` | internal/controller/driver_role_idp_group.go:448-472 | listed clients get exactly their roles, and nothing else changes |
| `GroupMappings.PostApply` | internal/controller/driver_role_idp_group.go:365-475 | declared realm roles and listed clients exact, unlisted clients emptied, undeclared parts unchanged, the changed flag true exactly when some collection changed; any failure leaves each collection between before and desired |
| `IdpMappers.MappersDiffer` | internal/controller/driver_role_idp_group.go:288-299 | true exactly when some desired key other than the alias disagrees |
| `IdpMappers.IndexListing` | internal/controller/driver_role_idp_group.go:238-243 | names resolve to their last listed mapper |
| `IdpMappers.IndexDesired` | internal/controller/driver_role_idp_group.go:245-256 | request bodies by name, the last declaration winning |
| `IdpMappers.BodyWrites` | api/v1alpha1/client_types.go:39-46 | a request body is the name, the alias, the type if given and exactly the configuration if there is one, and nothing else |
| `IdpMappers.DesiredLast` | internal/controller/driver_role_idp_group.go:245-248 | a name stands for its last declaration |
| `IdpMappers.DesiredNames` | internal/controller/driver_role_idp_group.go:245-248 | the desired names are exactly the declared ones |
| `IdpMappers.PostApply` | internal/controller/driver_role_idp_group.go:231-284 | what is left after any outcome; success handles every name, reports a change exactly when something was written, and writes nothing when nothing differs |
| `IdpMappers.ExactIff` | internal/controller/driver_role_idp_group.go:231-284 | success leaves exactly the desired mappers if and only if every mapper its name does not resolve to was already one of them |
| `IdpMappers.DuplicateNameStays` | internal/controller/driver_role_idp_group.go:273-282 | two mappers of one unwanted name: one stays |
| `IdpMappers.LaterQuietIff` | internal/controller/driver_role_idp_group.go:231-284 | after a success a later listing finds nothing to write if and only if no mapper passed over has an unwanted name or comes up then without agreeing |
| `IdpMappers.UniqueNamesExact` | internal/controller/driver_role_idp_group.go:231-284 | with unique names success leaves exactly the declared mappers, each with its declared type and configuration |
| `IdpMappers.MatchesDeclared` | internal/controller/driver_role_idp_group.go:286-299 | mappers that agree with the desired bodies are the declared ones |
| `IdpMappers.NamesStayUnique` | internal/controller/driver_role_idp_group.go:231-284 | unique names stay unique wherever the calls stop |
| `IdpMappers.MatchesIsQuiet` | internal/controller/driver_role_idp_group.go:251-283 | a second pass over the desired mappers has nothing to write |
| `IdpMappers.NothingWantedIsLost` | internal/controller/driver_role_idp_group.go:251-283 | wherever the calls stop, mappers with wanted names are still there and every new one is a desired one |
| `ConnectionCache.KeyInjective` | internal/keycloak/provider.go:82-82 | a cache key belongs to one connection, because namespaces hold no slash |
| `ConnectionCache.ConfigIff` | internal/keycloak/provider.go:114-148 | a configuration is built if and only if one describes the connection and the secret, field by field: url, name, realm or master, insecure, grant, and each credential in its own field; and it is the only one |
| `ConnectionCache.ClientConfig` | internal/keycloak/provider.go:114-148 | the field-by-field assembly gives that configuration, or none if none describes them |
| `ConnectionCache.Provider.For` | internal/keycloak/provider.go:64-110 | a call alone returns what building afresh would, reuses a cached client on equal versions, builds a new one otherwise, drops a missing connection and touches no other entry |
| `ConnectionCache.HitIsRight` | internal/keycloak/provider.go:86-93 | a hit is the client the call would have built |
| `ConnectionCache.StoredIsValid` | internal/keycloak/provider.go:102-108 | storing keeps every entry determined by its two versions, also over a newer entry |
| `ConnectionCache.StoredIsFound` | internal/keycloak/provider.go:86-108 | a stored client is found under its own versions, replaces that of the same connection and hides no other |
| `ConnectionCache.CacheIsTransparent` | internal/keycloak/provider.go:64-110 | in every interleaving, each finished call has the outcome of building from the connection and secret it read itself, and its client's configuration describes those two |
| `ConnectionCache.HitReuses` | internal/keycloak/provider.go:86-93 | a call whose versions are cached takes that client and builds none |
| `ConnectionCache.NotFoundDrops` | internal/keycloak/provider.go:66-75 | a call that does not find the connection drops its entry and no other |
| `ConnectionCache.StaysDropped` | internal/keycloak/provider.go:67-73 | a dropped entry stays out of every run in which no read finds the connection and no earlier call can still store |
| `ConnectionCache.DroppedReturnsIff` | internal/keycloak/provider.go:67-108 | a dropped entry can come back without a read finding the connection if and only if a call that read it earlier can still build a client |
| `ConnectionCache.DroppedEntryReturns` | internal/keycloak/provider.go:67-108 | a run of two calls in which it does |
| `TokenClient.AdminClient.Token` | internal/keycloak/client.go:104-167 | a cached token with time left is returned unchanged; otherwise the response decides, as a token, an authentication failure or another failure, and a token is stored with the expiry counted from its arrival; a failed refresh changes nothing |
| `TokenClient.AdminClient.Invalidate` | internal/keycloak/client.go:170-175 | the cached token is dropped |
| `TokenClient.AdminClient.DoOnce` | internal/keycloak/client.go:222-272 | a request is made exactly if the cache serves a token or one is granted, with that token; the answer is that of the reply, or the failure to get a token |
| `TokenClient.Classify` | internal/keycloak/client.go:255-271 | which statuses are an authentication failure, not found, a conflict and a success |
| `TokenClient.AdminClient.Do` | internal/keycloak/client.go:180-192 | a second attempt exactly if the first failed to authenticate, with a token granted after the first one's, made exactly if one is granted; and then its answer is the answer |
| `TokenClient.ServedIsAlive` | internal/keycloak/client.go:97-109 | the thirty second margin covers the HTTP timeout: a served token has not expired on the server |
| `TokenClient.ServedIff` | internal/keycloak/client.go:104-109 | a token is served if and only if more than thirty seconds of its lifetime, counted from its arrival, are left |
| `TokenClient.AliveIsServed` | internal/keycloak/client.go:104-109 | one alive on the server for longer than that is served |
| `TokenClient.RetryOnce` | internal/keycloak/client.go:104-192 | in every interleaving at most two requests a call, the second after an authentication failure, with a token granted after the invalidation and never the rejected one |
| `TokenClient.LastAttemptDecides` | internal/keycloak/client.go:180-192 | in every interleaving a call that is over answers what its last attempt ended with, made a second one exactly if the first failed to authenticate, and succeeds only with a request in that attempt |
| `TokenClient.CheckServesIff` | internal/keycloak/client.go:105-109 | inside Token the stored token is taken exactly while more than thirty seconds are left of it |
| `TokenClient.TokenFailureDecides` | internal/keycloak/client.go:136-162 | a failed token request ends the attempt with that failure, without a request |
| `TokenClient.ObtainingRun` | internal/keycloak/client.go:104-167 | a call that finds nothing stored obtains, stores and uses a new grant |
| `TokenClient.FindingRun` | internal/keycloak/client.go:104-109 | the next call takes the stored one |
| `TokenClient.SendingRun` | internal/keycloak/client.go:247-271 | a call with a token sends it and is over with the answer, unless that is an authentication failure |
| `TokenClient.CacheHitsAreAlive` | internal/keycloak/client.go:104-109 | in every interleaving a token served from the cache had more than thirty seconds left and was alive on the server |
| `TokenClient.OneInside` | internal/keycloak/client.go:105-106 | one call at a time is between the cache check and the storing of the token |

## Left out

- JSON text: annotations and requests are values, decoding is the inverse of encoding, and `jsonEqual` is equality; numbers are reals, without NaN, infinities or the two zeros of floating point.
- The Kubernetes client: informer staleness, optimistic locking, owner references and the object written back by a patch; each call is done or not.
- Crashes have no step of their own: a pass cut short is one whose remaining calls fail.
- Null entries: every optional field of the spec types is left out of the JSON when empty, so no spec of this operator has one at the top level; the laws cover them because the payload code handles them.
- Outside edits during a pass happen just before the main write and just before post-processing, not between the calls of an enforcer.
- In the pass function post-processing is one step with the outcome the enforcers produced; the rest of the realm (scopes, roles, clients) does not change while they run.
- Two objects over one key take turns on one representation; their collections and their interleaving inside a pass are not modelled together.
- Updates are addressed by natural key, not by the server-side id of the representation read.
- The server is the repository's fake; defaults, case rules, and a scope being both default and optional are not modelled, nor is the fake's keeping of composites inside the role representation.
- A body whose id comes from the spec: no spec type has one, and the laws on the stored representation ask for its absence.
- ScopeAssignments.PostApply: does not model the export of the client secret that precedes the scopes; `ensureOutputSecret` and `readSecretValue` are short glue.
- IdpMappers.PostApply: does not model a listed mapper without a string id, which the server always assigns.
- List entries without a name, and duplicate ids inside one request, of scopes and mappers: the model lists named entries.
- The group mapping document, which the fake server does not serve, is read as keyed by the client's server-side id and listing the clients that hold mappings.
- Role ids that are not strings take part in requests but not in a diff, as in the code; a request that compares two object-valued ids is not modelled.
- Building, encoding and decoding of HTTP requests, TLS, and the token request's form fields.
- Tokens are numbered grants, not strings: a server that grants the same string twice is taken to have made two grants.
- Integer overflow of the token lifetime.
- Metrics, events, logging, resync and retry intervals.
- The controllers, API types, generated code, charts and `install.sh`.
