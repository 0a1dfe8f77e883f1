# Verification of the relaydock agent's state machines

This project models the parts of the agent that decide something by changing state step by step, and proves
what holds over all their runs. Each module stands for one component:

- `InboundConfig`: the edits of the `inbounds` array (replace by tag, fold duplicates,
  keep their clients, look a tag up, remove it).
- `Fences`, `FenceKeepers`: the inbound mutation fence. A write-ahead record per tag ties a sidecar file, the
  Xray configuration and the live runtime together. `Fences` says what each operation makes of the memory and the
  sidecar; the class in `FenceKeepers` does it step by step.
- `FenceMachine`: the agent as a machine of small steps over memory, sidecar, configuration files, runtime and
  authorization. Every write may fail before or after its rename, every runtime call may fail and still have had an
  effect, and the agent may crash between any two steps. `FenceSafety`, `FenceHistory`, `FenceQuiet`,
  `FenceCommits`, `FenceSuspension` and `FenceProgress` prove what its runs keep and reach, `FenceSteps` the order of
  its steps; `FenceConfigs` ties its
  maps to real inbounds arrays.
- `Authorizations`: the loop that suspends and resumes the managed inbounds, as a pass of the machine.
- `FenceFiles`, `FenceMigration`: the format of the sidecar, and the migration of older sidecars with crashes.
- `ConnCounts`: connection counting by atomic add and compare, under every interleaving.
- `UserBuckets`, `DeniedUsers`: rate buckets that are shared with open links, and users that are denied, operation by
  operation; `DenialRaces`: the same about one user, atomic step by atomic step.
- `Snapshots`, `LimiterStores`, `WireGuardStart`: the durable limiter snapshots, the file, the marker and the limiter
  under one lock, and the start of an embedded Xray whose WireGuard peers must be known.
- `Writes`, `Json`, `Selections`: outcomes of a write through a rename, parsed JSON, and filtering, for all of them.
- `ReplayWindows`, `SecureChannels`: the 64-bit replay window (section 3.4.3 of RFC 4303), the nonce (section 5.3
  of RFC 8446) and the envelope.
- `StableSorts`, `RoutingMerge`, `RoutingEdits`, `OutboundReorder`: the merge at boot, the edits at run time, and
  reordering.
- `CertPairs`, `NginxReuse`, `NginxScanner`, `TailLog`: the small transactions and scanners.

What a specification function computes is said once more, in terms of its inputs alone, by a lemma beside it (mostly
named after it with `Means`, `Table`, `Layout` or `Places`) or by the `ensures` of the method that it specifies.

What the model takes as parameters: `digest` stands for the SHA-256 of the canonical JSON, `sprint` for
`fmt.Sprint`, `virtualTag` for the "<protocol>-<port>" name of an inbound without a tag, `lower` for
`strings.ToLower`, `trim` for `strings.TrimSpace`, `addr` and `host` for the two address parsers, and an abstract
AEAD with key material for AES-GCM and HKDF. Outcomes of writes, renames, runtime calls, tests and reloads are
parameters of the steps.

Where comments in the code promise more than the code does, the model follows the code and a lemma gives the exact
condition:

- The comment on deduplication says that no user is lost. `MergeKeepsUsers` shows that the users of a copy are lost
  when the kept inbound has no settings object; WireGuard peers are not merged at all.
- Preparing and persisting an inbound agree only under the condition in `PreparePersistAgree`; where they do not, an
  add that meets no failure stays pending for good (`CommitMatchesExactly`, `UnidentifiedAddStrands`).
- A recovery refuses, and blocks all later adds, when the file has a pending tag twice, as it has after a crash in an
  add of such a tag (`RecoveryRefusesTwins`, `CrashAfterReservation`).
- A ready record implies that runtime and file agree only if a reservation could be taken back or they did before
  (`StrandedRecord`), if the clients that an add gives an embedded Xray can be told apart (`UnidentifiedAddStrands`), and
  if no error that reads like "not found" is mistaken (`NotFoundCountsAsReverted`, `NotFoundCountsAsConverged`).
- The comment on denials says that existing links fail their next wait. A link whose bucket has been collected does not,
  nor one whose opening read the policy before the denial was stored and the hub after it was visited
  (`DeliveredDenial`, `DenialIsFinal`).
- The comment on deliveries promises one order for file and limiter. A write that fails after its rename leaves them
  apart (`StrayedApart`) until the tag is delivered again or Xray starts again (`LimiterFollowsFile`).
- A forged envelope moves the replay window, and may so keep a genuine one out (`DeliveryAmongForgeries`).
- An external Xray is not protected against a failed remove during a denial (`RollbackRevives`).
- Merging at boot is idempotent under the conditions of `MergeRulesIdempotent`, `MergeRoutingIdempotent`,
  `MergeTaggedIdempotent` and `MergeXrayConfigIdempotent`.
- A WireGuard tag with spaces around it escapes the identity requirement (`UntrimmedIsAnonymous`).
- The comment on syncing policies says that an unlimited user's bucket is left alone. The code opens it, and so does
  the model of a sync; an update does leave it alone.
- The last lines of a log file are right under the condition in `PartIsEnough`.

## Model

| member | source | states |
|---|---|---|
| FenceHistory.RecoveryDecides | internal/handler/inbound_mutation_fence.go:691-742 | After any run with crashes anywhere, a recovery decides every pending add or none; when it succeeds nothing is pending, and each owner is the id of the add if the files hold the intended generation and the owner before it if they hold the previous one |
| FenceHistory.ResolutionMeans | internal/handler/inbound_mutation_fence.go:766-853 | In terms of the file that the record names and the file in use, as far as they exist: intended exactly when they agree and all have the intended digest, previous when not so and all have the previous generation, refused when there is none, one has the tag twice, they disagree, or they agree on a third |
| FenceHistory.RecoveryRepeats | internal/handler/inbound_mutation_fence.go:141-201 | Over any run of recoveries, crashes, starts, stops and grants, at any point cut short, a tag keeps its record or is settled the one way the files decide |
| FenceHistory.CancellationsGrow | internal/handler/inbound_mutation_fence.go:221-274 | Over every run of adds, removes, edits, recoveries and crashes cancelled ids only grow, and a pending id is never a cancelled one |
| FenceHistory.CancelledNeverOwns | internal/handler/inbound_mutation_fence.go:221-399 | An id that has been cancelled and is not the owner never becomes the owner, whatever happens afterwards |
| FenceHistory.CancelledAddRejected | internal/handler/inbound_mutation_fence.go:216-220 | A delayed add whose id was cancelled changes nothing, after any run |
| FenceHistory.AddGoesOn | internal/handler/inbound_mutation_fence.go:279-345 | An add goes on to write the file exactly when nothing is pending, an expected owner is the recorded one and the file in use has the inbound with exactly the expected digest, and the add either has no id and the tag no history, or has an id that was not cancelled and a record that could be written |
| FenceHistory.AddStops | internal/handler/inbound_mutation_fence.go:365-389 | Otherwise nothing happens, unless the record has been written with an error and is to be taken back |
| FenceHistory.AddRecords | internal/handler/inbound_mutation_fence.go:346-398 | The record then names the id, the file in use, the digest of the inbound with the clients of the later copies, the owner before it, and whether and with which digest the file had the tag; nothing else changes |
| FenceHistory.OwnerChanges | internal/handler/inbound_mutation_fence.go:460-491 | An owner changes only by the commit of an add of the new id, by a recovery that finds the intended generation, or by a completed remove that names the old owner |
| FenceSafety.EveryStepSane | internal/handler/inbound_mutation_fence.go:416-512 | Each single step, with any write failing before or after its rename and a crash possible after it, keeps the invariant of its point, forgets no cancellation and moves owners in those three ways only |
| FenceQuiet.ReadyMeansAgreed | internal/handler/inbound_mutation_fence.go:610-621 | Over every run without edits from outside, with duplicate tags in the file, a runtime that differs from it, failures and crashes: a ready pending record at rest means that the runtime inbound equals the durable one while the server is authorized, if the calls that count as done are done and an embedded Xray is given only adds whose clients can be told apart |
| FenceQuiet.PublishedAgrees | internal/handler/inbound_mutation_fence.go:416-452 | In such runs, while the server is authorized, no step publishes an owner whose inbound the runtime disagrees with |
| FenceQuiet.RecoveryNeverRefuses | internal/handler/inbound_mutation_fence.go:751-764 | Over every run without edits from outside, whatever the runtime does, if each add is of a tag that the file has at most once, every pending add can be decided at every point of every flow |
| FenceQuiet.RecoveryRefusesTwins | internal/handler/inbound_mutation_fence.go:791-853 | At any point of a run without edits from outside whose adds take over only clients that can be told apart, a recovery can decide everything exactly when the file has no pending tag twice |
| FenceQuiet.CrashAfterReservation | internal/handler/inbound_firewall_sync.go:149-165 | An add of a tag that the file has twice is let through; an agent that crashes right after its reservation can recover exactly when the tag was there at most once |
| FenceCommits.CommitMatchesExactly | internal/handler/inbound_mutation_fence.go:460-475 | After any run without edits from outside, a commit that is reached matches exactly when preparing the inbound a second time gave the same digest, and the two inbounds are the same exactly when the clients taken over from the later copies in the file can be told apart |
| FenceProgress.RecoveryCompletes | internal/handler/inbound_mutation_fence.go:141-171 | Wherever such a run was cut short, whatever the runtime holds, a recovery while Xray runs and nothing fails ends ready and with nothing pending if the file has no pending tag twice, and otherwise stops at once with every record in place |
| FenceProgress.AddCompletes | internal/handler/management_handler.go:3238-3312 | An accepted add that meets no failure ends with its inbound, prepared a second time, in the file and in an external runtime, while an embedded one has it as it was prepared first; with the same digest its id owns the tag and no record is left, with another the record stays |
| FenceProgress.UnidentifiedAddStrands | internal/handler/management_handler.go:3238-3312 | An add that takes over clients which cannot be told apart ends, without any failure, ready and pending, with runtime and file apart exactly if Xray is embedded; a later resolution takes it for undone if the file has the digest from before, and otherwise refuses |
| FenceProgress.RemoveCompletes | internal/handler/management_handler.go:3327-3412 | A remove by the owner that meets no failure ends with the id cancelled and no owner, and with the tag gone from file and runtime |
| FenceProgress.RollbackCompletes | internal/handler/inbound_firewall_sync.go:167-233 | Wherever an add or a remove gave up, a rollback that meets no failure puts back the file, the inbound in the runtime and the record of the tag |
| FenceProgress.FreshIsQuiet | internal/handler/inbound_mutation_fence.go:623-680 | An agent that starts next to a configuration file and a sidecar without records is at the beginning of such a run |
| FenceQuiet.StrandedRecord | internal/handler/inbound_mutation_fence.go:370-388 | Where a failed reservation could not be taken back, runtime and file agree about the ready record exactly when they did before the add |
| FenceQuiet.NotFoundCountsAsReverted | internal/handler/inbound_firewall_sync.go:184-192 | A removal, or a re-adding to an external Xray, that fails with an error like "not found" counts as reverted, and is reverted exactly when the call left what was wanted |
| FenceQuiet.NotFoundCountsAsConverged | internal/handler/management_handler.go:4075-4097 | A removal in a recovery counts in the same way; the ready record that may be left agrees with the runtime exactly when the call was not mistaken |
| FenceKeepers.Keeper.BeginAdd | internal/handler/inbound_mutation_fence.go:279-399 | In terms of the request, the old memory and the inbound in the file: exactly which adds get a reservation, which pass without one, and which are turned down; the record that is written; and the second write that takes it back when the first failed after its rename |
| FenceKeepers.Keeper.Commit | internal/handler/inbound_mutation_fence.go:460-491 | Commits exactly when the record is in place and the file holds the intended generation; the record otherwise stays for recovery, and the transaction ends either way |
| FenceKeepers.Keeper.Rollback | internal/handler/inbound_mutation_fence.go:493-512 | Puts the state before the add back in memory and sidecar when the write was applied |
| FenceKeepers.Keeper.BeginRemoval | internal/handler/inbound_mutation_fence.go:238-271 | Records the cancellation before anything is removed and reports a remove that a newer add superseded |
| FenceKeepers.Keeper.CompleteRemoval | internal/handler/inbound_mutation_fence.go:581-608 | Clears the owner only when the remove names it |
| FenceKeepers.Keeper.Ensure | internal/handler/inbound_mutation_fence.go:610-621 | Blocks while a record waits for the runtime, and resolves what is ready |
| FenceKeepers.Keeper.DecidePending | internal/handler/inbound_mutation_fence.go:691-731 | In any order of the tags: succeeds exactly when every pending add can be decided, and then holds all decisions |
| FenceKeepers.Keeper.ResolvePending | internal/handler/inbound_mutation_fence.go:691-742 | Writes all decisions in one write, or changes nothing |
| FenceKeepers.Keeper.ValidatePending | internal/handler/inbound_mutation_fence.go:751-764 | Succeeds exactly when every pending add can be decided |
| Fences.FindActualInbound | internal/handler/inbound_mutation_fence.go:791-853 | The loop over the two paths finds the inbound exactly when the file that the record names or the file in use exists, none has the tag twice, and both say the same; it is that of the recorded file where that exists |
| Fences.DecidedBy | internal/handler/inbound_mutation_fence.go:826-852 | The files decide exactly when one exists, none has the tag twice and all agree about presence and digest |
| Fences.ActualMeans | internal/handler/inbound_mutation_fence.go:791-853 | The same about the function that the step machine uses |
| Fences.RejectedMeans | internal/handler/inbound_mutation_fence.go:296-345 | The conditions under which an add is not turned down, one by one |
| Fences.ResolvedMeans | internal/handler/inbound_mutation_fence.go:691-742 | A decided add leaves its id or the owner it was to replace as owner, keeps the cancellations, and leaves no entry exactly when it had made one and nothing else is recorded there |
| Fences.CommitMeans | internal/handler/inbound_mutation_fence.go:460-491 | A commit needs the record in place with its id, and the recorded file with the tag once and the intended digest; then the id is the owner, in memory and sidecar |
| Fences.RemovalMeans | internal/handler/inbound_mutation_fence.go:238-271 | A remove with an id adds it to the cancelled ones, and is superseded exactly when another id owns the tag; one without an id needs a tag without owner |
| Fences.CompletionMeans | internal/handler/inbound_mutation_fence.go:581-608 | Exactly an owner that the remove names, or any owner if it names none, is cleared |
| Fences.EnsureMeans | internal/handler/inbound_mutation_fence.go:610-621 | Without pending adds a request goes on; with them it needs ready records, all decidable, and a write that works |
| Fences.PutBackMeans | internal/handler/inbound_mutation_fence.go:370-388 | Taking a record back gives the states from before the add |
| FenceConfigs.UpsertRepresents | internal/handler/management_handler.go:5463-5482 | Writing an inbound into a real inbounds array is the map update that the step machine makes |
| FenceConfigs.RemovalRepresents | internal/handler/management_handler.go:5554-5602 | Removing a tag from a real inbounds array is the map removal that the step machine makes |
| FenceConfigs.LookupRepresents | internal/handler/inbound_mutation_fence.go:912-936 | Looking a tag up in the array gives what the map holds for it |
| FenceSteps.StepsInOrder | internal/handler/inbound_mutation_fence.go:416-452 | No flow leaves out a step: whatever happens, each point of an add, a rollback, a recovery and a remove is reached from the one before it only, by a step that worked; a rollback begins only where a step of an add or a remove failed, with what that one remembered, and takes the record back only when file, runtime and firewall were restored |
| FenceSteps.AddTouches | internal/handler/management_handler.go:3238-3312 | Of the steps of an add one writes the file, one gives the runtime the inbound, and one ends the record; nothing else changes |
| FenceSteps.RollbackTouches | internal/handler/inbound_firewall_sync.go:167-233 | A rollback writes the file as it was or removes it, and puts the inbound back that the file had or takes it out |
| FenceSteps.RecoveryTouches | internal/handler/inbound_mutation_fence.go:855-886 | A recovery brings each pending tag to the inbound on which the files agree, and gives up where they do not or the limiter does not know the owners of its peers |
| FenceSteps.RevertCounts | internal/handler/inbound_firewall_sync.go:184-202 | When the runtime counts as reverted: the call worked, was left for later, or failed with "not found" where that is taken at its word |
| FenceSteps.RemoveTouches | internal/handler/management_handler.go:3327-3412 | A remove takes the inbound out of the runtime, then every copy of the tag out of the file, and clears the owner last |
| FenceSteps.MatchedMeans | internal/handler/management_handler.go:3993-4022 | Which tags are managed, and that a managed inbound is not put into the runtime while the server is not authorized |
| FenceSteps.UpsertMeans | internal/handler/management_handler.go:5504-5552 | Writing an inbound leaves it alone of its tag with the clients of the later copies, and folds the copies of every other tag |
| FenceSteps.StartLoads | internal/embedded/xray.go:83-157 | A start gives the runtime the first copy of every tag of the file, but for the withheld ones and, without authorization, the managed ones |
| FenceSteps.DenialTakes | internal/handler/management_handler.go:649-690 | A denial takes exactly the managed inbounds out of the runtime whose removal does not leave them there |
| FenceFiles.FileFromStates | internal/handler/inbound_mutation_fence.go:1111-1135 | The file lists every state that is not blank, with its cancelled ids once each |
| FenceFiles.ReadFenceStates | internal/handler/inbound_mutation_fence.go:995-1062 | Reads a file exactly when its version is known, its entries are valid and the entries of one tag agree; each tag then gets the union of its cancellations |
| FenceFiles.ReadableMeans | internal/handler/inbound_mutation_fence.go:995-1062 | Which files are read: version 1 or 2, every record complete, and entries under one trimmed tag that agree about owner and record |
| FenceFiles.MergeFenceStates | internal/handler/inbound_mutation_fence.go:1064-1092 | Merges exactly the states whose common tags agree about owner and record |
| FenceFiles.MergeMeans | internal/handler/inbound_mutation_fence.go:1064-1092 | When two sidecars go together, and what each tag then has from either |
| FenceFiles.EntryMeans | internal/handler/inbound_mutation_fence.go:1011-1058 | What an entry is read as, and which records are refused |
| FenceFiles.WriteThenRead | internal/handler/inbound_mutation_fence.go:1111-1135 | Writing clean states and reading them back gives the same states without the blank ones, and nothing else |
| FenceMigration.MigrationKeepsStates | internal/handler/inbound_mutation_fence.go:623-680 | However often the migration of the old sidecars is cut short, before or after any write or removal, what the sidecars say together stays the same and is what gets loaded; conflicting sidecars stay untouched |
| FenceMigration.TotalMeans | internal/handler/inbound_mutation_fence.go:623-680 | Sidecars can be merged exactly when any two of them can, and the merge has the tags, owners and records of all and the union of their cancellations |
| FenceMigration.MigrationCompletes | internal/handler/inbound_mutation_fence.go:623-680 | A migration in which nothing fails leaves one sidecar, with that merge |
| FenceSuspension.DenialSuspends | internal/handler/management_handler.go:438-466 | A denial that could remove every running managed inbound leaves none of them active |
| FenceSuspension.SuspensionHolds | internal/handler/management_handler.go:3993-4022 | Embedded: from then until the next grant no run of adds, removes, client edits, rollbacks, recoveries, restarts and crashes makes an owned tag active |
| FenceSuspension.UnownedUntouched | internal/handler/management_handler.go:649-690 | Neither denying nor granting changes the runtime of a tag that is not owned |
| FenceSuspension.RollbackRevives | internal/handler/inbound_firewall_sync.go:167-202 | During a denial the rollback of a failed remove brings an owned inbound back exactly when Xray is external, there was one in the file, and the call gets through |
| Authorizations.Runtime.Enforce | internal/handler/management_handler.go:649-690 | The loop over the managed inbounds: each ends as its own outcome says, the others are not touched, exactly the failures are reported, and no failure means that all are off but those whose removal failed with "not found", or that all with a definition are on |
| Authorizations.EnforcedMeans | internal/handler/management_handler.go:649-690 | What becomes of one inbound in each case, and when a failure is reported |
| Authorizations.PassIsDenial | internal/handler/management_handler.go:649-690 | A pass over all managed inbounds is the denial of the step machine |
| Authorizations.ReenablingsPass | internal/handler/management_handler.go:649-690 | The re-enablings of the step machine, one after the other, are a pass of the loop |
| InboundConfig.PreparePersistAgree | internal/handler/management_handler.go:5484-5502 | The prepared inbound is found again, alone and unchanged, after it was written over the same configuration, exactly when every client that is folded in carries its key or an email and no other tag differs from its own by spaces only |
| InboundConfig.UpsertInbound | internal/handler/management_handler.go:5504-5552 | The new arrays, and the inbound as it stands in them |
| InboundConfig.UpsertedWithTag | internal/handler/management_handler.go:5504-5552 | One inbound of the tag remains, the new one with the clients of the later copies; other tags keep their first copy with the clients of theirs |
| InboundConfig.PlacedMeans | internal/handler/management_handler.go:5515-5536 | The inbound takes the place of the first of its tag, or comes last |
| InboundConfig.DedupeTaggedArray | internal/handler/management_handler.go:2809-2846 | The pass with the map of seen tags computes the fold over the items, and counts what it dropped |
| InboundConfig.DedupedWithTag | internal/handler/management_handler.go:2809-2846 | Each tag is left with one inbound, its first copy with the clients of the others |
| InboundConfig.DedupedPlaces | internal/handler/management_handler.go:2809-2846 | What is left are the first copies of every tag and everything without a tag, at their places and, unless clients were merged into an inbound, unchanged; outbounds are never merged |
| InboundConfig.FoldTwice | internal/handler/management_handler.go:2850-2895 | Folding the same copies in again changes nothing exactly when all their clients are identified |
| InboundConfig.MergeInboundClients | internal/handler/management_handler.go:2850-2895 | The nested loops compute the merge that MergedMeans and WithClientsPlaces describe |
| InboundConfig.MergedMeans | internal/handler/management_handler.go:2850-2895 | Only the list of clients changes; the protocol is that of the copy, if it names one, and decides about the list |
| InboundConfig.WithClientsPlaces | internal/handler/management_handler.go:2872-2892 | Behind the clients that were there come, in their order, exactly those of the copy that match neither one of them nor an earlier one that was appended |
| InboundConfig.CredentialTable | internal/handler/management_handler.go:4103-4140 | For every protocol by which field two clients match, and when by email |
| InboundConfig.ClientsTable | internal/handler/management_handler.go:2860-2869 | For every protocol which list of the settings holds its clients |
| InboundConfig.MergeKeepsUsers | internal/handler/management_handler.go:2850-2895 | No user of a copy is lost exactly when it has none there or the kept inbound has a settings object |
| InboundConfig.FindInbound | internal/handler/inbound_mutation_fence.go:912-936 | Absent, present or duplicate, by the trimmed tag |
| InboundConfig.LookedUpMeans | internal/handler/inbound_mutation_fence.go:912-936 | None, one or several objects whose trimmed tag it is, in terms of the places of the array |
| InboundConfig.RemoveInbound | internal/handler/management_handler.go:5554-5602 | Keeps what neither carries the tag nor is listed under it as protocol and port |
| InboundConfig.RemainingWithTag | internal/handler/management_handler.go:5554-5602 | Removing a tag takes every copy of it and none of another tag |
| InboundConfig.RemainingAre | internal/handler/management_handler.go:5554-5602 | What is left is the array without the objects of the tag and those listed under it, in order |
| ConnCounts.CounterExact | internal/limiter/limiter.go:155-188 | Under every interleaving of the atomic steps a group's counter is the number of its admitted and undecided connections, and it is never clamped to zero |
| ConnCounts.WithinLimit | internal/limiter/limiter.go:155-177 | At most L connections of a group are admitted at any time when its users share the positive limit L |
| ConnCounts.RefusedOnlyWhenFull | internal/limiter/limiter.go:155-177 | A connection that is not interrupted is refused exactly when L connections are counted already |
| ConnCounts.Counters.AcquireConn | internal/limiter/limiter.go:167-176 | Adds itself, compares, and takes itself back when that was one too many |
| ConnCounts.Counters.ReleaseConn | internal/limiter/limiter.go:180-188 | One less, never below zero; the empty group is ignored |
| ConnCounts.ReleaseClamps | internal/limiter/limiter.go:180-188 | So do the two steps of a release that nothing interrupts |
| UserBuckets.PrefixFindsEmail | internal/limiter/limiter.go:72-82 | A key matches the prefix of an email exactly when it is the key of that email, given no bar in either |
| UserBuckets.Limiter.LookupUserInfo | internal/limiter/limiter.go:65-84 | The scan, in any order, finds the one policy of the email |
| UserBuckets.Limiter.GetUserBucketOf | internal/limiter/limiter.go:390-450 | Rejects exactly the denied users; the others get the bucket of their email, which is made when there is none |
| UserBuckets.BucketGiven | internal/limiter/limiter.go:390-450 | A link gets the bucket of its email unchanged, or a new one with the tighter of the two limits and a burst of a quarter second between 64 and 256 KiB; the address is noted and nothing else changes |
| UserBuckets.Limiter.SetUserSpeedOf | internal/limiter/limiter.go:526-567 | Overrides or restores the rate of the one bucket; a denied user's bucket is closed instead |
| UserBuckets.SpeedSet | internal/limiter/limiter.go:526-567 | An automatic limit paces the bucket and marks the email; lifting it brings the static limits back; a denied user stays closed; no other user is touched |
| UserBuckets.Limiter.CollectOnlineUsers | internal/limiter/limiter.go:462-502 | Drops exactly the buckets of users that were not seen and are not throttled |
| UserBuckets.CollectMeans | internal/limiter/limiter.go:462-502 | Exactly which buckets stay |
| UserBuckets.Limiter.SyncInbound | internal/limiter/limiter.go:263-318 | Replaces the policies, keeps the buckets and writes the new rates into them |
| UserBuckets.SyncMeans | internal/limiter/limiter.go:263-318 | After a sync the node limit is the given one, each key has the last of the given users and no other key exists, buckets and addresses are kept, and each bucket is as the last policy of its email says |
| UserBuckets.StoredMeans | internal/limiter/limiter.go:279-292 | Under each key stands the last user with that key |
| UserBuckets.Limiter.UpdateInbound | internal/limiter/limiter.go:352-384 | Adds policies and writes the positive rates into the buckets that exist |
| UserBuckets.UpdateMeans | internal/limiter/limiter.go:352-384 | An update replaces or adds single policies, and sets a bucket as the last policy of its email with a static limit, or a denial, says |
| UserBuckets.Limiter.AcquireConn | internal/limiter/limiter.go:155-177 | A denied user is refused and not counted; an unknown one is let through and not counted |
| DeniedUsers.SyncDenies | internal/limiter/limiter.go:297-307 | Delivering a denial closes the user's bucket, which nobody else may be given |
| DeniedUsers.UpdateDenies | internal/limiter/limiter.go:359-368 | So does a denial in an update |
| DeniedUsers.DeniedStaysOut | internal/limiter/limiter.go:390-450 | While the policy denies, over any run the user is rejected and its closed bucket stays closed |
| DeniedUsers.DeniedLinkIsSilent | internal/limiter/rate.go:115-137 | A link that holds that bucket writes nothing but empty buffers, for as long as the denial lasts |
| DenialRaces.DenialIsFinal | internal/limiter/limiter.go:295-318 | Under every interleaving of the atomic steps of any openings, speed changes, deliveries and collections: while the policy denies, the user is shut out for good exactly when the bucket in the hub and those of all links are closed and no operation is on its way that has read too early |
| DenialRaces.DeliveredDenial | internal/limiter/limiter.go:295-318 | A delivered denial achieves this exactly when each link holds the bucket in the hub, or a closed one, and no other operation has read too early |
| DenialRaces.ThreatOpens | internal/limiter/limiter.go:390-450 | An operation that has read too early needs at most a few more steps to leave an open bucket in the hub or with a link |
| DenialRaces.OpeningUninterrupted | internal/limiter/limiter.go:390-450 | An opening whose steps follow each other is the limiter operation of the model above |
| DenialRaces.SpeedUninterrupted | internal/limiter/limiter.go:526-567 | So is the setting of a speed |
| DenialRaces.UpdateUninterrupted | internal/limiter/limiter.go:352-384 | So is the delivery of a policy |
| DeniedUsers.WriteMultiBuffer | internal/limiter/rate.go:115-137 | Writes exactly when nothing limits it or every chunk is granted; it asks for chunk after chunk and stops at the first that is refused |
| DeniedUsers.ChunksCover | internal/limiter/rate.go:126-135 | The chunks add up to the buffer, and all but the last are as large as the burst |
| LimiterStores.Store.Deliver | internal/limiter/persistent.go:302-329 | What a delivery makes of file and limiter, with a write failing before or after its rename and a file that cannot be put back; it succeeds exactly when the snapshot is valid, the file readable and written, and a running Xray reached if there is one; then the limiter has the limits of the snapshot, the last user under each tag, email and uid and no other key, and the last owner of each address |
| LimiterStores.DeliveryUndone | internal/limiter/persistent.go:302-329 | A delivery that fails leaves the limiter alone, and the file unless it was written and could not be put back |
| LimiterStores.Store.Delete | internal/limiter/persistent.go:414-477 | What a deletion makes of file, marker and limiter, whatever fails on the way and whatever cannot be undone, and when it succeeds |
| LimiterStores.DeletesMeans | internal/limiter/persistent.go:414-477 | When a deletion succeeds: which tags have to do with WireGuard, when the marker goes, and what must have worked |
| LimiterStores.Store.Start | internal/embedded/xray.go:83-157 | Starts exactly on readable state, with the file where the marker demands it; then the limiter says this of every snapshot of the file and has no other tag |
| LimiterStores.Store.Stop | internal/embedded/xray.go:179-198 | Stopping needs no readable state |
| LimiterStores.LimiterFollowsFile | internal/limiter/persistent.go:299-329 | Over every run of deliveries, deletions, starts and stops the running limiter says about a tag what the file says exactly if the last operation that counts for the tag renewed it, or failed after writing just what the limiter says; InStepMeans says what that is |
| LimiterStores.InStepMeans | internal/limiter/persistent.go:299-329 | In step means: the limiter has the tags of the file, and under each the limits, users and owners of its snapshot |
| LimiterStores.StrayedApart | internal/limiter/persistent.go:314-327 | A delivery or deletion that fails after writing the file, and cannot put it back, leaves file and limiter apart exactly when the limiter says something else; a deletion of a tag that was in step always does |
| LimiterStores.RequirementSticks | internal/limiter/limiter.go:279-290 | Once an identity is required of a tag it stays required over every run, up to a deletion of the tag, a stop or a start |
| LimiterStores.DeletionForgets | internal/limiter/persistent.go:447-476 | After a deletion that succeeds on a WireGuard tag neither file nor limiter have the tag, and the marker stands exactly where peers are left |
| LimiterStores.DeletionUndone | internal/limiter/persistent.go:387-406 | One that fails leaves file, marker and limiter as they were, if what was done can be undone |
| LimiterStores.MarkerHasFile | internal/limiter/persistent.go:432-443 | Over every run the marker never stands without the file it demands |
| Snapshots.RestoredReflects | internal/embedded/xray.go:127-135 | Restoring the snapshots one by one gives a limiter with exactly their tags, each as LiveMeans says |
| Snapshots.LiveMeans | internal/limiter/limiter.go:279-292 | What a snapshot becomes in the limiter: its limits, the last user under each tag, email and uid and no other key, the last owner of each address, and an identity required where there is one or was required before |
| Snapshots.Validate | internal/limiter/persistent.go:66-97 | Accepts exactly the snapshots with proper users and peers in which no address has two owners |
| Snapshots.ValidMeans | internal/limiter/persistent.go:66-97 | The conditions on tag, users and peers, one by one |
| Snapshots.ReplaceSnapshot | internal/limiter/persistent.go:280-297 | The snapshot takes the place of the one of its tag |
| Snapshots.RemoveSnapshot | internal/limiter/persistent.go:370-384 | Drops the tag, and tells whether it was there and had peers |
| Snapshots.BuildWireGuardUsers | internal/limiter/limiter.go:96-114 | The last proper peer of an address owns it |
| Snapshots.LastPeerOwns | internal/limiter/limiter.go:96-114 | Exactly the addresses of proper peers have an owner, and it is that of the last one |
| WireGuardStart.MissingMappings | internal/embedded/config.go:184-249 | Finds exactly the tags of WireGuard inbounds with a peer address that no snapshot gives an owner |
| WireGuardStart.IncompleteMeans | internal/embedded/config.go:184-249 | An inbound is held back exactly when it is WireGuard and a peer of it has no address or one that is no host of a peer of a snapshot with its tag |
| WireGuardStart.SuppressInbounds | internal/embedded/config.go:263-306 | Keeps the inbounds whose trimmed tag is not suppressed, in order |
| WireGuardStart.UnsuppressedAre | internal/embedded/config.go:263-306 | They are the configuration without the suppressed ones |
| WireGuardStart.StartedResolves | internal/embedded/xray.go:94-135 | Every WireGuard inbound with peers that is left running requires an identity and resolves each allowed address to the owner its snapshot names, given a trimmed tag |
| WireGuardStart.StartRequires | internal/embedded/xray.go:94-135 | A start leaves every WireGuard inbound with peers that it keeps requiring an identity, given a trimmed tag |
| WireGuardStart.NobodyAnonymous | internal/dispatcher/default.go:112-136 | From then on nobody on the tag is anonymous, over every run up to its deletion, a stop or a start, and while the limiter follows the file whoever is let through is the owner that the file names for the source address |
| WireGuardStart.OwnersUnique | internal/limiter/persistent.go:66-97 | That owner is the only one |
| WireGuardStart.UntrimmedIsAnonymous | internal/dispatcher/default.go:112-136 | Under a tag that is not trimmed the traffic counts as anonymous |
| WireGuardStart.ResolveInboundUser | internal/dispatcher/default.go:112-136 | Where an identity is required nobody is anonymous, and who is let through is the owner of the source address |
| WireGuardStart.RequirePeerMappings | internal/limiter/persistent.go:482-529 | Accepts exactly the addresses that have an owner, and then the marker demands the snapshots at the next start |
| WireGuardStart.AcceptedPeersStart | internal/embedded/config.go:184-249 | An inbound is not held back exactly when all its addresses have been accepted |
| ReplayWindows.ReplayWindow.Check | internal/securechan/securechan.go:119-144 | Accepts exactly the numbers that are not zero, not accepted before, and above or within 63 of the highest; the 64-bit map holds exactly the accepted ones of the window |
| ReplayWindows.ReplayExactly | internal/securechan/securechan.go:119-144 | The same over every sequence of calls, in terms of the earlier answers alone |
| ReplayWindows.ShiftLeftBit | internal/securechan/securechan.go:125-130 | Shifting the 64-bit map moves every bit up and brings in zeros |
| ReplayWindows.ShiftLeftValue | internal/securechan/securechan.go:125-130 | The shift is multiplication by a power of two on 64 bits: what is lost is a multiple of 2^64 |
| SecureChannels.NonceUnique | internal/securechan/securechan.go:255-264 | Different sequence numbers give different nonces |
| SecureChannels.MakeNonce | internal/securechan/securechan.go:255-264 | The loop computes the nonce that NonceLayout describes |
| SecureChannels.NonceLayout | internal/securechan/securechan.go:255-264 | Bit by bit: the first four bytes are those of the base nonce, and the other eight are turned over where the big-endian sequence number, padded on the left, has a one |
| SecureChannels.ParseEnvelope | internal/securechan/securechan.go:212-236 | Parsing an envelope gives its number and its sealed text |
| SecureChannels.EnvelopeLayout | internal/securechan/securechan.go:212-225 | Byte by byte: the version 1, the sequence number with its highest byte first, and what was sealed |
| SecureChannels.ParseMeans | internal/securechan/securechan.go:228-236 | What is too short, what is of another version, and that the number of the others is the one whose eight bytes, highest first, stand behind the version |
| SecureChannels.Session.Encrypt | internal/securechan/securechan.go:212-225 | Numbers go up by one, and the envelope carries the number under whose nonce it was sealed, laid out as EnvelopeLayout and NonceLayout say |
| SecureChannels.Session.Decrypt | internal/securechan/securechan.go:228-253 | Refuses short, foreign, replayed and forged envelopes, and answers the others with their plaintext |
| SecureChannels.ReceivedMeans | internal/securechan/securechan.go:236-253 | What the window admits counts as accepted before it is opened, and stays so when it does not open |
| SecureChannels.PairedSessions | internal/securechan/securechan.go:148-209 | The two ends of a session seal and open with each other's keys |
| SecureChannels.DeliveryExactlyOnce | internal/securechan/securechan.go:212-253 | With genuine envelopes in any order and with repeats, each plaintext comes back unchanged, at most once, and on its first delivery inside the window |
| SecureChannels.DeliveryAmongForgeries | internal/securechan/securechan.go:228-253 | Among any arrivals, forged ones with them, a genuine envelope is delivered exactly when no number that the window accepted before is its own or 64 or more above it, whoever sent that |
| SecureChannels.DeliveredAtMostOnce | internal/securechan/securechan.go:228-253 | If nothing forged opens, whatever is delivered is what was sent under its number, and nothing is delivered twice |
| RoutingMerge.MergeRules | cmd/relaydock-agent/main.go:1121-1167 | The loops drop the rules that the template makes superfluous and sort what remains behind it; MergedRulesMean says what that comes to |
| RoutingMerge.MergedRulesMean | cmd/relaydock-agent/main.go:1121-1167 | As multisets the template rules and exactly those existing ones that are no object or have neither the marktag nor the signature of a template rule; smaller classes first, and in a class template rules before existing ones, each in order |
| RoutingMerge.PriorityTable | internal/handler/management_handler.go:7722-7749 | The class of a rule in terms of its outbound tag and its marktag |
| RoutingMerge.SignatureTells | cmd/relaydock-agent/main.go:1173-1198 | Rules without the separator in their texts have one signature exactly when the thirteen fields read the same in both, lists up to order |
| RoutingMerge.MergeRulesIdempotent | cmd/relaydock-agent/main.go:1107-1169 | Merging the same template rules twice changes nothing exactly when they are all objects |
| RoutingMerge.MergeRouting | cmd/relaydock-agent/main.go:1107-1169 | Template fields win, except the rules |
| RoutingMerge.MergedRoutingMeans | cmd/relaydock-agent/main.go:1107-1169 | Field by field what a merged routing block holds |
| RoutingMerge.MergeRoutingIdempotent | cmd/relaydock-agent/main.go:1107-1169 | A second merge of the same routing template changes nothing exactly under a condition on the template |
| RoutingMerge.MergeTaggedArray | cmd/relaydock-agent/main.go:1075-1103 | Template items come first, and existing items with their tags go |
| RoutingMerge.MergedTaggedMeans | cmd/relaydock-agent/main.go:1075-1103 | The template items, and behind them the existing items without a tag or with one that no template item carries |
| RoutingMerge.MergeTaggedIdempotent | cmd/relaydock-agent/main.go:1075-1103 | A second merge changes nothing exactly when every template item carries a tag |
| RoutingMerge.MergeXrayConfig | cmd/relaydock-agent/main.go:1043-1071 | Every template section is merged in its own way |
| RoutingMerge.MergedConfigMeans | cmd/relaydock-agent/main.go:1043-1071 | Section by section what the merged configuration holds |
| RoutingMerge.MergeXrayConfigIdempotent | cmd/relaydock-agent/main.go:1043-1071 | Merging the same template twice changes nothing exactly when each section settles |
| RoutingMerge.SignatureIgnoresOrder | cmd/relaydock-agent/main.go:1173-1198 | Rules that differ by the order of their lists have the same signature |
| RoutingMerge.SortStringsSorts | cmd/relaydock-agent/main.go:1184-1192 | The texts of a list come in order, each as often as before |
| StableSorts.StableSortUnique | cmd/relaydock-agent/main.go:1163-1167 | A list that is sorted and keeps the order within each class is the stable sort |
| StableSorts.StableSortMeans | cmd/relaydock-agent/main.go:1163-1167 | Sorting loses nothing, brings smaller classes first and keeps each class in its order |
| StableSorts.StableSortOfPartlySorted | cmd/relaydock-agent/main.go:1163-1167 | Sorting a part first does not change the stable sort of the whole |
| RoutingEdits.AddRuleTo | internal/handler/management_handler.go:4774-4794 | The loop inserts a rule before the first object of its class or a later one |
| RoutingEdits.RuleAdded | internal/handler/management_handler.go:4766-4792 | An added object stands at that place, and the others keep their order; what is no object is refused |
| RoutingEdits.RuleRemoved | internal/handler/management_handler.go:4794-4807 | A removal takes out the rule at the index; what is no index is refused |
| RoutingEdits.InsertionPointSplits | internal/handler/management_handler.go:4776-4790 | A new rule comes before the first object of its class or a later one |
| RoutingEdits.InsertedSorted | internal/handler/management_handler.go:4774-4794 | The list stays sorted exactly when the rule is of the last class or only objects stand before its place |
| RoutingEdits.InsertedIsStableSort | internal/handler/management_handler.go:4776-4777 | The new rule leads its class and nothing else moves, as the stable sort would have it |
| RoutingEdits.EditUsers | internal/handler/management_handler.go:4809-4870 | Finds the first object with the marktag and adds the email to its users once, or removes it wherever it occurs |
| RoutingEdits.UsersEdited | internal/handler/management_handler.go:4809-4870 | Refused exactly when something is blank or no rule has the marktag; otherwise only the users of the first such rule change: after an add the email is named, once if it was not before, after a removal it is not, and the others keep their order |
| RoutingEdits.AddThenRemove | internal/handler/management_handler.go:4809-4870 | Removing an email that has just been added gives the rules back as they were |
| RoutingEdits.RunStaysInBootOrder | internal/handler/management_handler.go:4766-4870 | From sorted rule objects any run of edits leaves a list that the sort at the next boot does not move |
| OutboundReorder.Reorder | internal/handler/management_handler.go:4542-4575 | The queues of indices give the requested order, and then the rest |
| OutboundReorder.ReorderedPermutation | internal/handler/management_handler.go:4542-4575 | The result is a permutation of the old array |
| OutboundReorder.RequestedFirst | internal/handler/management_handler.go:4542-4575 | The result lists every outbound once; of any two in it the first was taken by an earlier request than the second, or only the first was requested, or neither was and the first stood before the second |
| OutboundReorder.TakenMeans | internal/handler/management_handler.go:4542-4575 | A request takes the outbound of its tag that as many others of the tag precede in the array as requests for it precede this one |
| CertPairs.Disk.ReplacePair | internal/handler/cert_deploy_atomic.go:177-213 | For every schedule of failures: both new files on success, both old files on failure, and a mixed pair only after two failures and with its own report; without a failure it succeeds and leaves no temporary file, and no other file changes |
| CertPairs.Disk.Deploy | internal/handler/cert_deploy_atomic.go:59-117 | The deployment remembers exactly what was there, and one path for both is refused; the certificate is readable by all, the key by its owner only |
| CertPairs.Disk.Rollback | internal/handler/cert_deploy_atomic.go:122-127 | A rollback that succeeds restores contents, modes and absence |
| CertPairs.Disk.DeployAndReload | internal/handler/management_handler.go:6218-6242 | After a failed reload of nginx or Xray and a restore that worked, both paths hold again what they held before the request, file or no file, and the services that may have seen the new pair are told; a recovery that stays blocked after Xray took the pair is an error that leaves the pair |
| CertPairs.Disk.RollbackAfterReloadFailure | internal/handler/cert_deploy_atomic.go:275-290 | Services are told only once the old pair is back |
| NginxScanner.HttpIncludePatterns | internal/handler/nginx_reuse.go:269-333 | The one pass with its five variables computes the fold over the characters |
| NginxScanner.ScannerFindsIncludes | internal/handler/nginx_reuse.go:263-333 | For every tree of directives and blocks over plain and quoted words, however it is spaced and commented, even between words, exactly the first arguments of the includes under an http block, in order and without their quotes |
| NginxScanner.FieldsOfWords | internal/handler/nginx_reuse.go:316-327 | Splitting words with white space between them gives the words back |
| NginxScanner.TrimQuotesMeans | internal/handler/nginx_reuse.go:326 | All quotes at both ends go, and nothing else |
| NginxReuse.Nginx.TryCandidate | internal/handler/nginx_reuse.go:368-446 | Accepted exactly when every step works; otherwise, if the restores work, the files are as before, and without a rollback error so is what nginx runs |
| NginxReuse.Nginx.SetupReuse | internal/handler/nginx_reuse.go:81-135 | Succeeds exactly when some candidate works, with the first that does, whether or not the rollbacks before it worked; failure leaves all files and the running configuration, success changes one loader and the domain file only |
| TailLog.TailLogFile | internal/handler/management_handler.go:2177-2216 | The chunked reverse read takes the last lines of a part that begins the file or has more newlines than asked for |
| TailLog.JoinLines | internal/handler/management_handler.go:2194-2215 | Splitting a text into lines and joining them gives the text back |
| TailLog.PartIsEnough | internal/handler/management_handler.go:2194-2215 | They are the last lines of the file exactly when they are whole, or nothing but newlines is there |
| TailLog.OneNewlineIsRight | internal/handler/management_handler.go:2177-2216 | For a file that ends with at most one newline they always are |

## Left out

- ReadyMeansAgreed: leaves out edits of the configuration from outside the agent's lock, and the three cases where it fails: a reservation that cannot be taken back, about whose tag the runtime disagreed (StrandedRecord), adds that give an embedded Xray clients which cannot be told apart (UnidentifiedAddStrands), and calls whose error reads like "not found" and is mistaken (NotFoundCountsAsReverted, NotFoundCountsAsConverged).
- RecoveryNeverRefuses: leaves out adds of a tag that the file has twice, where it fails (CrashAfterReservation).
- AddCompletes: the handlers' flow through an add, a remove, a rollback and a recovery is modelled on values, as the points of FenceMachine, because a crash may come between any two of them; the fence's own methods are modelled on a class.
- LookupRepresents: speaks of trimmed tags without a twin that differs by spaces; the step machine does not know such twins.
- SuspensionHolds: an agent that starts again during a denial comes back denied, as its stored configuration says; the time before the stored configuration is read is not modelled.
- RecoveryDecides: a file that cannot be read makes an operation return without an effect, which the step machine shows as no step at all.
- BeginAdd: the tag, the id and the digest of a request come trimmed, as the handler leaves them.
- SignatureTells: takes texts without the separator; with it, two rules that differ may have one signature.
- Start: the inbounds that a start withholds are chosen in WireGuardStart; a start that cannot even be tried is no step at all. Handed a file with a tag twice, Xray fails to start or has the first copy; what else it could make of the copies is not modelled.
- SyncInbound: the bucket that anonymous forwarding shares is not modelled; the owners of tunnel addresses, which the same call replaces, are part of Snapshots.
- Delete: a path of the limiter state that has not been configured is not modelled.
- WithinLimit: speaks of one fixed limit for all users of a group.
- DenialIsFinal: writing the rate and the burst of a bucket is one step; the deletion of a whole inbound is not among the operations.
- DeniedStaysOut: takes the operations one after the other, one uid per email and no bar in an email, as the keys of the limiter do.
- Deploy: the certificate's PEM checks, the safe-path checks and symbolic links come before it and are not modelled.
- SetupReuse: how the candidates are found and ordered, the first test of the configuration, and the private directories are not modelled.
- ScannerFindsIncludes: speaks of words without white space between their quotes; words with it are scanned by HttpIncludePatterns but not part of the trees.
- Text: trimming and lower case are modelled on ASCII text.
- The text of JSON and of numbers, and canonical digests: a number that the two decoders print differently is not modelled.
- Directory synchronisation: a rename is the point of durability, with a failure reported before or after it.
- HTTP handlers, authentication, WebSocket and heartbeat loops, gRPC, systemd and nginx processes: operations that work or fail.
- The shared bucket of anonymous forwarding, rejection counters, and the times of the addresses seen.
- RateReader: its chunk loop is that of the writer; deadlines of reads are not modelled.
- Automatic speed limits, listen gates and timers: their behaviour rests on callbacks that are already under way.
- Uninstall, upgrade, speed test, WARP, probes, metrics and log rotation: input and output without decisions.
