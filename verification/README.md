# Verified model of the hub, the gateway and completion detection

A Dafny 4.11 model of the parts of initagent whose correctness is an argument rather than a
lookup, with proofs. `dafny verify dfyconfig.toml` checks everything.

What is modelled, file by file:

- **Box configuration sync** (`BoxTables`, `BoxManifest`, `BoxWrites`, `ModelFiles`, `BoxCoherence`,
  `ManifestLaws`, `SeedLaws`, `AimLaws`, `EffectLaws`, `RosterLaws`, `ManifestMeaning`, `WriteMeaning`,
  `HubStore`). A box polls with the
  `config_version` it holds and is told "not modified" or handed a manifest assembled from some ten tables
  by separate queries. The tables are one value, each write a function on it with the bump it commits, and
  the class `HubStore.Store` runs the same statements with other writers' transactions between the reads
  of a build, and between a check and the write it guards. The main result is that a 304 is always true,
  torn reads included: versions never go back, and a box whose version stood still kept every row its
  manifest reads. `EffectLaws` and `RosterLaws` say what each write does to the manifest of every box; `ManifestMeaning` says
  what a manifest holds against the stored rows, and `WriteMeaning` what each write stores or refuses.
- **The gateway's task queue** (`TaskTable`, `TaskLaws`, `TaskRuns`, `TaskDispatchers`, `TaskMeaning`, `TaskStore`): leases
  in truncated seconds, one task a worker across projects, FIFO order, heartbeats, and any number of
  dispatchers, each to finish its own claim.
- **The mail outbox** (`MailOutbox`, `MailDrainers`, `MailMeaning`): any number of drainers as a state machine, stale
  reclaim, backoff and giving up.
- **The GGUF header parser** (`GgufHeader`, `GgufFormat`, `GgufLaws`): the parse as a function of the bytes left, the
  loops over offsets that compute it, and an encoder written from the GGUF specification, with its own type codes,
  widths, magic and key names.
- **Organization authorization** (`Membership`, `MembershipLaws`, `MembershipMeaning`, `Scopes`).
- **Completion detection** (`Sentinel`, `SentinelLaws`, `Decimal`, `Quoting`, `Resolvers`).
- **The login rate limiter** (`RateLimiter`).

`Prelude.dfy` holds Option and Result, the string operations of Go's standard library the code relies
on, the order of SQL's `ORDER BY column, id`, the clock, and bytes.

Where the source is a store with methods, the model has a class whose methods are proved equal to a
function of the old state; invariants over runs are then proved about those functions.

## Findings

Statements a reader might expect that the code does not keep, each with a lemma that shows the failure
and one that says exactly when it holds:

- `SetModelMeta` writes a size the manifest shows and bumps nothing. Fails at `ManifestLaws.LearnedSizeGoesStale`,
  holds exactly by `ManifestLaws.MetaKeepsManifestExactly`. Runs in the coherence theorem therefore leave the
  size alone.
- `DeleteModel`, `SetAssignment` and `SetBoxModelOverride` check on one read and write in a later transaction, so
  a reference can dangle. Fails at `ManifestLaws.InterleavedDeleteDangles`, exactly
  `ManifestLaws.RunKeepsRefsExactly`.
- `UpdateModel` and `SetModelFiles` do the same, so two accepted calls can store a pin that `ValidateModelFiles`
  rejects. Fails at `SeedLaws.RacingAnchorBreaksPin`, exactly `SeedLaws.RunKeepsPinsValidExactly`.
- Nothing unverified may be assigned, but a pin in use may lose its digest or its purpose afterwards, and ships.
  Fails at `AimLaws.ClearedDigestShips`, exactly `AimLaws.RunAimsExactly`.
- `SetState` may move a task from queued to assigned by hand; the row still carries its old worker, who may be
  busy. Fails at `TaskRuns.HandAssignmentDoubles`; whole calls keep one task a worker otherwise
  (`TaskRuns.ReachableOneTask`), exactly `TaskLaws.MoveKeepsOneTaskExactly`. Nothing in the gateway makes that
  move today.
- `SetState` and `Finish` read and write in two statements. A dispatcher's start that lands late revives a finished
  task and doubles the worker that finished it. Fails at `TaskRuns.StaleStartDoubles`, exactly
  `TaskLaws.RunKeepsOneTaskExactly`; within the leases it cannot happen (`TaskDispatchers.PromptFromEmpty`).
- Two tasks enqueued in the same second are ordered by id, so a later one can come first. Fails at
  `TaskRuns.SameSecondOvertakes`, exactly `TaskLaws.AheadGrowsExactly`.
- `Finish` does not ask which worker is finishing, so a dispatch that outlives its lease can complete another
  worker's run. Fails at `TaskRuns.LateFinishCompletesAnotherClaim`, and as a run of dispatchers at
  `TaskDispatchers.LateFinishEndsAnothersClaim`; exactly `TaskDispatchers.FinishesItsOwnClaimExactly` for one
  dispatcher, `TaskDispatchers.RunIsSafeExactly` for all of them.
- `MarkMailFailed` reads the count and writes without a condition, so a mark made after the row was reclaimed can
  put a sent mail back in the queue. Fails at `MailDrainers.LateMarkRevivesSentMail`; by step exactly
  `MailDrainers.SentIsRevivedExactly`, over runs exactly `MailDrainers.RunKeepsInvExactly` and
  `MailDrainers.OwnUntilRetakenExactly`.
- Role changes and removals are decided on one read and written by another statement. Fails at
  `MembershipLaws.TwoOwnersLeavingAtOnce` and `MembershipLaws.TwoOwnersSteppingDownAtOnce`, exactly
  `MembershipLaws.DelayedWritesKeepOwnerExactly`.
- An invitation to ownership outlives its minter's ownership. Fails at
  `MembershipLaws.RemovedOwnersInvitationStands`, exactly `MembershipLaws.InvitationMakesOwnerExactly`.
- `sameFileList` speaks of the same artifacts in any order, but counts no repeats in its second list. Fails at
  `SeedLaws.RepeatedEntryPasses`, exactly `SeedLaws.DecidesOrderExactly`; the drift check only compares with lists
  without repeats (`SeedLaws.MergedListIsDecided`).
- A done file that holds only blanks hides a marker in the run's output. Fails at
  `Resolvers.BlankDoneFileHidesMarker`, exactly `Resolvers.SendKeysResolvesExactly`.
- The comment on the context length speaks of the `<arch>.context_length` key; the code takes any key that contains
  `context_length`, and the model follows the code. Fails at `GgufLaws.StretchedModelAnswersTheWrongKey`; for given
  keys exactly `GgufLaws.KeysDecideExactly`, for given values `GgufLaws.ContextIsDocumentedExactly`.
- An array of arrays is stepped over at four bytes an element, whatever the inner arrays hold. It lands on the
  array's end exactly when the outer array is empty (`GgufLaws.NestedArraysSkipExactly`).


## Model

| member | source | states |
|---|---|---|
| HubStore.Store.BuildBoxManifest | internal/hub/box_manifest.go:28-116 | Version read first, every other row in a later query with arbitrary writes in between: whatever comes out, torn or not, is coherent, i.e. if the box still has the version it carries then it equals the manifest an undisturbed build would give now |
| HubStore.Store.HandleBoxChanges | internal/hub/box_sync.go:19-66 | 404, 400, 304 or a manifest under exactly the source's conditions; a 304 is only sent when every coherent manifest held at that version equals the current one; a served manifest is coherent |
| HubStore.Store.Sync | internal/hub/box_sync.go:47-64 | A box that polls any number of times, interleaved with any writes: whenever the last answer is 304, what it holds is what a build would answer at that moment |
| BoxCoherence.NotModifiedIsTrue | internal/hub/box_sync.go:58-61 | Over any admissible run of writes, 304 is answered exactly while the version stands still, and then the held manifest is the current one |
| BoxCoherence.StepEvolves | internal/hub/box_store.go:172-198 | Every write, and every write half that lands after its check, keeps versions from going back and, for every box whose version it leaves alone, every row that box's manifest reads |
| BoxCoherence.RunEvolves | internal/hub/box_store.go:172-198 | The same over whole runs of writes |
| BoxCoherence.CoherentKept | internal/hub/box_sync.go:47-64 | A manifest that was coherent stays coherent under any evolution of the tables |
| BoxCoherence.OrgRowsEvolve | internal/hub/box_store.go:182-190 | Bumping only the boxes bound to an organization is enough when only that organization's rows moved |
| BoxCoherence.BumpedEvolves | internal/hub/box_store.go:172-198 | A bump covers a write when every box it leaves out kept its footprint |
| ManifestLaws.StepMovesExactly | internal/hub/box_store.go:172-198 | A completed write advances by one exactly the boxes of its scope; a refused or empty one advances none |
| ManifestLaws.UntouchedBoxKeepsManifest | internal/hub/box_store.go:182-198 | A box a narrow bump leaves out keeps exactly the manifest it had |
| ManifestLaws.ResolvedPinsMeaning | internal/hub/box_model_override_store.go:161-198 | The resolved roster is override-else-factory for every purpose, and fails exactly when some resolved pin is gone |
| ManifestLaws.StepKeepsRefs | internal/hub/model_store.go:664-719 | No whole write leaves an assignment or override naming a pin that does not exist |
| ManifestLaws.RunKeepsRefs | internal/hub/model_assignment_store.go:61-97 | In every state of any run of whole creates, updates, deletes, assignments, overrides, clears and seeds, every assignment and override names a pin that exists |
| ManifestLaws.RunKeepsRefsExactly | internal/hub/model_store.go:664-719 | With checks and writes interleaved in any way, the same holds in every state exactly when each write half finds its pin still there, or still unused, as it lands |
| ManifestLaws.RefsExistBuilds | internal/hub/box_model_override_store.go:178-195 | So the "no longer in the registry" error never comes out of an undisturbed build |
| ManifestLaws.DropModelKeepsRefsExactly | internal/hub/model_store.go:664-697 | The delete itself, which runs after the in-use read, keeps every reference exactly when the pin is unused at that moment |
| ManifestLaws.PutAssignmentKeepsRefsExactly | internal/hub/model_assignment_store.go:61-97 | The write half of SetAssignment, which follows its read of the pin, keeps every reference exactly when the pin is still there |
| ManifestLaws.PutOverrideKeepsRefsExactly | internal/hub/box_model_override_store.go:52-97 | So does the write half of SetBoxModelOverride |
| ManifestLaws.InterleavedDeleteDangles | internal/hub/model_store.go:664-719 | An assignment that lands between the read and the delete is left dangling, and the next build of every box it reaches fails |
| ManifestLaws.MetaKeepsManifestExactly | internal/hub/model_store.go:579-600 | SetModelMeta bumps nothing: it leaves a manifest true exactly when it keeps the size, or no purpose of the box resolves to that pin |
| ManifestLaws.LearnedSizeGoesStale | internal/hub/model_store.go:579-600 | A size learned for a pin the box resolves to leaves a 304 for a manifest that is no longer the current one |
| ManifestLaws.CreateOrgKeepsManifestExactly | internal/hub/store.go:2327-2338 | A new organization bumps nothing: a manifest stays true exactly when the box was not already bound to that id |
| ManifestLaws.EntryOfManifest | internal/hub/box_manifest.go:66-105 | Every model entry of a manifest names the pin its purpose resolves to, with the stored size |
| EffectLaws.ManifestModels | internal/hub/box_manifest.go:66-105 | A build succeeds exactly when every pin a purpose resolves to exists, and its models are then exactly the entries the box's rows call for, limits included |
| ManifestMeaning.BuildsExactly | internal/hub/box_manifest.go:28-116 | A build answers a manifest exactly when the box exists and so does every pin it is to get, its own choice or else the fleet's |
| ManifestMeaning.FailureMeans | internal/hub/box_model_override_store.go:178-195 | A build of an existing box that fails names a purpose whose pin is gone |
| ManifestMeaning.EntryMeans | internal/hub/box_manifest.go:66-105 | There is an entry exactly for the purposes with a chosen pin; it names that pin and shows its stored columns |
| ManifestMeaning.FilesMean | internal/hub/box_manifest.go:118-142 | Its files are the stored ones in order, names and sizes unchanged; a stored digest ships as it is, and an empty one becomes the pin's exactly for the anchor and stays empty for every other file |
| ManifestMeaning.LimitsMean | internal/hub/model_limits_store.go:290-319 | Only persona, worker and narrator carry limits, of those only what is positive, the box's own before the fleet's |
| ManifestMeaning.BoxMeans | internal/hub/box_manifest.go:28-50 | The manifest carries the box's row and its narrator as stored |
| ManifestMeaning.OrgsMean | internal/hub/box_manifest.go:36-56 | It carries exactly the bound organizations that exist, each with the whole staff |
| ManifestMeaning.UntunedMeans | internal/hub/staff_store.go:206-275 | An organization that did not tune a member sees the canonical row and no soul beside it |
| ManifestMeaning.TunedMeans | internal/hub/staff_store.go:206-275 | One that did sees its own value in each of the seven columns it set, the canonical one in the others, and its soul beside the canonical soul |
| EffectLaws.OverrideShows | internal/hub/box_model_override_store.go:52-97 | An accepted override gives its own box the manifest it had with that purpose's entry replaced, one version on, and leaves every other box its manifest |
| EffectLaws.ClearedOverrideShows | internal/hub/box_model_override_store.go:125-150 | Clearing it replaces that entry by the fleet's, or drops it if there is none; the build fails exactly when the fleet's pin is gone; other boxes keep their manifests |
| EffectLaws.ClearUndoesOverride | internal/hub/box_model_override_store.go:52-150 | Setting and clearing an override gives every box the manifest it had, its own box two versions on |
| EffectLaws.AssignmentShows | internal/hub/model_assignment_store.go:61-97 | After an assignment every box has the manifest it had, one version on, with that purpose's entry replaced exactly on the boxes that do not override it |
| EffectLaws.BoxLimitShows | internal/hub/model_limits_store.go:199-234 | A box limit changes one thing anywhere: the limits of that purpose's entry on that box, if the purpose is generative |
| EffectLaws.ClearedBoxLimitShows | internal/hub/model_limits_store.go:260-283 | Cleared, that entry shows the fleet's limit again, and nothing else moves |
| EffectLaws.FleetLimitShows | internal/hub/model_limits_store.go:108-135 | A fleet limit changes that entry on exactly the boxes without a limit of their own; every box is one version on |
| RosterLaws.BoundOrgsShow | internal/hub/box_store.go:147-170 | SetBoxOrgs replaces the organizations and rosters of that box's manifest by those of the named organizations that exist, and nothing else anywhere |
| RosterLaws.StaffTuningShows | internal/hub/staff_store.go:281-314 | Tuning a staff member changes that member in that organization's roster, on exactly the boxes that carry it, and nothing else in any manifest |
| RosterLaws.ClearedTuningShows | internal/hub/staff_store.go:319-332 | Clearing the tuning puts the canonical member back in the same place |
| RosterLaws.UpsertedStaffShows | internal/hub/staff_store.go:117-200 | A saved member shows in every roster of every box, as that organization tuned it or else as saved, its id and creation time kept; nothing else moves, and every box is one version on |
| RosterLaws.TuningSurvivesAnEdit | internal/hub/staff_store.go:206-275 | In the two manifests around an edit of a member, an organization's view keeps each of the seven columns it tuned, and its soul, and follows the edit in every other |
| RosterLaws.BoxColumnsShow | internal/hub/box_store.go:128-143 | UpdateBox changes name, host and edition in that box's manifest, one version on, and nothing else anywhere |
| RosterLaws.NarratorShows | internal/hub/box_narrator.go:137-160 | An edited narrator keeps its id and birthday, and is all that changes in any manifest |
| AimLaws.RunAimsExactly | internal/hub/model_store.go:523-571 | Over any run, interleaved in any way: every assignment and override points at an existing pin that serves the purpose and has a digest, in every state, exactly when no UpdateModel or seed takes an aimed purpose or the digest off a pin in use and each write half lands on a pin that still serves |
| AimLaws.StepAimsExactly | internal/hub/model_assignment_store.go:61-97 | The same for one write; the checks of SetAssignment and SetBoxModelOverride are enough for theirs |
| AimLaws.AimsReachManifests | internal/hub/box_model_override_store.go:161-198 | While that holds, every build succeeds and ships only pins that serve their purpose and are verified |
| AimLaws.PutRowAims | internal/hub/model_store.go:523-571 | The UPDATE of UpdateModel keeps it exactly when the new row still has every purpose that points at the pin, and a digest if any does |
| AimLaws.ClearedDigestShips | internal/hub/model_store.go:523-571 | An assigned pin saved again without its digest is accepted and ships unverified in the next manifest |
| WriteMeaning.RunKeepsRowsOk | internal/hub/box_store.go:64-98 | Over any run, interleaved in any way: no two boxes share a slug, every box has a narrator, and no staff slug, gender or limit is stored that its write is to refuse |
| WriteMeaning.CreateBoxMeans | internal/hub/box_store.go:64-98 | A box is created exactly under a known edition and a slug of its own, at version 1, with a narrator if it has none; a refusal says which and changes nothing |
| WriteMeaning.DeleteBoxMeans | internal/hub/box_store.go:230-263 | A deleted box takes its bindings, narrator and overrides with it and nothing of any other box; its limits stay behind |
| WriteMeaning.BeingsAccepted | internal/hub/staff_store.go:91-113 | A staff member or narrator is refused exactly for a reserved slug or an unknown gender |
| WriteMeaning.PinRefusals | internal/hub/model_assignment_store.go:61-80 | Why a pin may not be pointed at, the first reason first: no such purpose, box or pin, a purpose it does not serve, no digest |
| WriteMeaning.LimitMeans | internal/hub/model_limits_store.go:34-135 | A fleet limit is set exactly for a known purpose, 0 to 32768 tokens and a time that is not negative |
| WriteMeaning.BoxLimitMeans | internal/hub/model_limits_store.go:199-283 | A box limit needs the box as well |
| WriteMeaning.CreateModelMeans | internal/hub/model_store.go:453-492 | A new pin is its form, with its first purpose as its own, no files, no size and nothing learned; refused exactly for its purposes, its quantization or a taken id |
| WriteMeaning.UpdateModelMeans | internal/hub/model_store.go:523-571 | An update writes the form's columns and leaves engine, size, files and what was learned; refused exactly for its form, a missing pin or an anchor that is not in the list |
| WriteMeaning.DeleteModelMeans | internal/hub/model_store.go:664-697 | A pin goes exactly when neither the fleet nor any box points at it |
| WriteMeaning.OrgEditsMean | internal/hub/store.go:2389-2420 | A new name or level is written to that organization's row and, versions aside, nowhere else |
| WriteMeaning.FilledLimitsMean | internal/hub/model_limits_seed.go:40-90 | The seed of the limits answers exactly the purposes it names that have no answer, and changes none that have |
| HubStore.Store.SetBoxOrgs | internal/hub/box_store.go:147-170 | The loop over the ids, repeats dropped, binds exactly the given set |
| HubStore.Store.SetBoxModelOverride | internal/hub/box_model_override_store.go:52-97 | Checked on one read, written in a later transaction with any writes in between; every reference survives exactly when the pin is still there then |
| HubStore.Store.SetAssignment | internal/hub/model_assignment_store.go:61-97 | Likewise for the fleet |
| HubStore.Store.DeleteModel | internal/hub/model_store.go:664-697 | The in-use read comes first, any writes in between, then the delete: a pin read as in use is refused, and otherwise every reference survives exactly when the pin is missing or unused by the time it goes |
| HubStore.Store.UpdateModel | internal/hub/model_store.go:523-571 | Validated on one read, written in a later transaction with any writes in between; every stored pin stays valid exactly when the new anchor is in the file list stored by then |
| HubStore.Store.SetModelFiles | internal/hub/model_store.go:615-652 | Likewise: exactly when the anchor stored by then is in the new list |
| HubStore.Store.EnsureSeedModels | internal/hub/model_store.go:1328-1413 | The pass over the seeds: inserts, restores drift, fills empty digests, and bumps the fleet once if anything changed |
| HubStore.Store.PendingFactoryAssignments | internal/hub/model_assignment_seed.go:138-162 | The defaults not answered already whose pin exists, serves the purpose first and is verified |
| HubStore.Store.EnsureSeedAssignments | internal/hub/model_assignment_seed.go:91-133 | Marker, pending defaults and bump in one commit, and nothing once the marker stands |
| HubStore.LimitWalk | internal/hub/model_limits_store.go:290-319 | The walk over the purposes answers for exactly those with a limit of the box or of the fleet, the box's first |
| HubStore.FillFiles | internal/hub/box_manifest.go:127-142 | Overwriting a copy in place keeps every name and size and every digest there is, and gives the pin's to an entry without one exactly if it is the anchor's |
| ModelFiles.SameFileList | internal/hub/model_store.go:115-133 | The map-based loop decides whether two lists have as many entries and every one of the second is in the first |
| SeedLaws.DecidesOrderExactly | internal/hub/model_store.go:110-133 | That is equality up to order, for every first list, exactly when the second list has no repeated entry |
| SeedLaws.MergedListIsDecided | internal/hub/model_store.go:1370-1376 | The drift check compares with a merged list, which has no repeats when the seed is valid, so there it decides equality up to order |
| SeedLaws.RepeatedEntryPasses | internal/hub/model_store.go:110-133 | A second list that names x twice passes for x and any y, and not the other way round |
| ModelFiles.MergeSeedFiles | internal/hub/model_store.go:144-168 | The loop keeps the seed's entries and fills their empty digests from the stored ones of the same name |
| ModelFiles.ValidateModelFiles | internal/hub/model_store.go:173-195 | Accepts exactly the lists with non-blank, distinct trimmed names, sizes not negative and the anchor among them |
| ModelFiles.ValidOrFaulty | internal/hub/model_store.go:173-195 | A list with entries is refused exactly for a blank or repeated trimmed name, a negative size, or an anchor that is not in it |
| ModelFiles.ParsePurposes | internal/hub/model_store.go:270-291 | Refuses an empty list or an unknown entry; otherwise the canonical order of the purposes given, a persona serving the narrator too |
| SeedLaws.ParsedPurposesMean | internal/hub/model_store.go:270-291 | The answer holds the purposes given, and the narrator exactly if given or with the persona, in order |
| SeedLaws.CanonicalIsTheSort | internal/hub/model_store.go:285-290 | That order is the only duplicate-free sort of the set by purpose index |
| SeedLaws.MergeIdempotent | internal/hub/model_store.go:144-168 | Merging a second time changes nothing |
| SeedLaws.MergeMeans | internal/hub/model_store.go:144-168 | A merged entry has the seed's name, and the stored digest and size of that name where they say something, the seed's otherwise |
| SeedLaws.MergeKeepsDigests | internal/hub/model_store.go:144-168 | Every non-empty stored digest of a file the seed still lists without one survives the merge |
| SeedLaws.MergeKeepsValid | internal/hub/model_store.go:144-195 | A merge of valid lists passes ValidateModelFiles |
| SeedLaws.SeedModelsIdempotent | internal/hub/model_store.go:1328-1413 | A second pass writes nothing and bumps nothing |
| SeedLaws.SeedPassKeepsDigest | internal/hub/model_store.go:1328-1413 | No pass replaces a non-empty stored digest |
| SeedLaws.SeedPassRestores | internal/hub/model_store.go:1328-1413 | After a pass every pin of the seed is there with every column the seed states, its purposes, its files up to order, and a digest if either has one |
| SeedLaws.SeedPassSpares | internal/hub/model_store.go:1328-1413 | and every other pin is as it was |
| SeedLaws.RunKeepsPinsValid | internal/hub/model_store.go:453-660 | In every state of any run of whole writes every stored pin passes ValidateModelFiles |
| SeedLaws.RunKeepsPinsValidExactly | internal/hub/model_store.go:523-660 | With checks and writes interleaved in any way, that holds in every state exactly when each write half finds its anchor and its list fitting as it lands |
| SeedLaws.PutRowKeepsValidExactly | internal/hub/model_store.go:523-571 | The UPDATE of UpdateModel keeps every pin valid exactly when the stored list then has the new anchor |
| SeedLaws.PutFilesKeepsValidExactly | internal/hub/model_store.go:615-652 | That of SetModelFiles exactly when the new list has the anchor stored then |
| SeedLaws.RacingAnchorBreaksPin | internal/hub/model_store.go:523-652 | An UpdateModel that moves the anchor and a SetModelFiles, both accepted, checked and written crosswise, store a pin that ValidateModelFiles rejects |
| SeedLaws.SeedAssignmentsMeaning | internal/hub/model_assignment_seed.go:91-162 | The first pass answers every open purpose with its first default whose pin is there, verified and of that purpose, leaves the others open, and overwrites no answer |
| SeedLaws.SeedAssignmentsBump | internal/hub/model_assignment_seed.go:91-131 | It moves every box on by one when it answered something, and none otherwise |
| SeedLaws.SeededForGood | internal/hub/model_assignment_seed.go:91-133 | Once it has run, no later pass in any run changes an assignment |
| TaskStore.Store.Enqueue | internal/gateway/task.go:16-61 | Checks in order, forced to queued, defaults filled, refused ids change nothing |
| TaskStore.Store.Claim | internal/gateway/task.go:202-283 | The transaction as one step: reap, slot count, oldest row, lease; an error leaves the table untouched |
| TaskStore.Store.Heartbeat | internal/gateway/task.go:286-315 | The checks in the source's order, and then a full lease from now; TaskMeaning.BeatMeans says whose beat counts |
| TaskStore.Store.SetState | internal/gateway/task.go:127-139 | A legal transition writes state, reason and time; anything else changes nothing |
| TaskStore.Store.Finish | internal/gateway/task.go:185-199 | The same with the exit code |
| TaskStore.Store.RunClaimed | internal/gateway/dispatch.go:64-144 | Start, call, finish, with any commits by others in between; if they keep off the task while the lease lasts, the run ends as the agent answered, empty commands and unknown launch modes included |
| TaskStore.Store.RunQueued | internal/gateway/dispatch.go:50-62 | Offline and draining workers and refused claims change nothing; otherwise the run of the claimed task |
| TaskTable.Oldest | internal/gateway/task.go:237-242 | ORDER BY created_at, id LIMIT 1: the one row before all others |
| TaskMeaning.EnqueueMeans | internal/gateway/task.go:16-61 | A task is accepted exactly when its project, its id and its launch mode are good and the id is new; it starts queued as of now with its defaults, and a refusal names the first reason |
| TaskMeaning.ClaimMeans | internal/gateway/task.go:202-328 | A claim is granted exactly when every slot of the worker is lapsed and some task of the project waits; it takes the earliest for the whole lease, five minutes by default, drops every other lapsed task, and touches nothing else |
| TaskMeaning.GrantMeans | internal/gateway/task.go:268-283 | The claimer is told its row, the end of its lease, and a third of it to beat by |
| TaskMeaning.BeatMeans | internal/gateway/task.go:286-315 | A beat counts exactly when the row names that worker, holds a slot and has no lease or one that is not over; it renews the lease and writes nothing else; another worker's is answered WrongWorker and changes nothing |
| TaskMeaning.LeasesMoveByTheirHolders | internal/gateway/task.go:286-328 | Over any run of calls, a lease that neither its holder's beat nor a claim on its task renewed is what it was, or dropped |
| TaskMeaning.MoveMeans | internal/gateway/task.go:127-199 | SetState and Finish make exactly the thirteen legal moves, writing state, reason, time and, of a finish, the exit code |
| TaskMeaning.FinishedForGood | internal/scheduler/task.go:54-88 | Over any run of calls, the row of a finished task never changes again |
| TaskMeaning.EndingMeans | internal/gateway/dispatch.go:64-151 | A dispatch ends done exactly when the agent was asked and answered 0; the agent's word is the reason when it was asked, and all else is a failure with exit code 1 |
| TaskLaws.ClaimMeaning | internal/gateway/task.go:202-283 | When a claim succeeds (every slot of the worker reapable, something queued or reapable in the project), which row it takes (the oldest of those) and what happens to every other row |
| TaskLaws.FailedClaimChangesNothing | internal/gateway/task.go:202-283 | A claim that fails leaves the table as it was, the reap included |
| TaskRuns.ReachableOneTask | internal/gateway/task.go:202-283 | From an empty table, over any run of enqueues, claims, heartbeats, state changes and finishes, each made in one piece with its checks, every worker holds at most one task, if no call moves a task to assigned by hand |
| TaskDispatchers.PromptRunIsSafe | internal/gateway/dispatch.go:50-144 | Any number of dispatchers, their reads and writes apart: if every dispatch stays within its lease, then throughout any run each worker holds at most one task, no task is in two dispatchers' hands, and every start and finish lands on the dispatcher's own claim |
| TaskDispatchers.PromptFromEmpty | internal/gateway/dispatch.go:50-144 | So it is in every such run from an empty queue |
| TaskDispatchers.RunIsSafeExactly | internal/gateway/dispatch.go:50-144 | For dispatches of any length, all of that holds throughout exactly when no claim is ever granted past the lease of a row in flight |
| TaskLaws.RunKeepsOneTaskExactly | internal/gateway/task.go:127-199 | For bare commits, state writes that land after their checks included: at most one task a worker in every state exactly when no state write wakes a row of a busy worker |
| TaskLaws.StateWriteKeepsOneTaskExactly | internal/gateway/task.go:127-199 | The write half of SetState and Finish, on whatever state it lands |
| TaskLaws.StepKeepsOneTaskExactly | internal/gateway/task.go:202-283 | The same for one commit |
| TaskLaws.MoveKeepsOneTaskExactly | internal/gateway/task.go:127-199 | Made in one piece, only a hand move from queued to assigned can double a worker; Finish and the dispatcher's moves cannot |
| TaskRuns.HandAssignmentDoubles | internal/gateway/task.go:127-139 | From an empty queue: a task put back by hand, its worker claiming another, and put forward again by hand doubles that worker |
| TaskRuns.StaleStartDoubles | internal/gateway/task.go:127-139 | From an empty queue: a dispatcher's SetState that read before its lease lapsed and writes after another worker finished the task revives the finished task and doubles that worker |
| TaskLaws.AheadGrowsExactly | internal/gateway/task.go:237-242 | The unfinished tasks ahead of k gain a member exactly when a task with a smaller key is enqueued or a finished one is revived |
| TaskRuns.AheadNeverGrows | internal/gateway/task.go:237-328 | If every enqueue of a run has a key after that of k, the unfinished tasks ahead of k only get fewer, reaps included |
| TaskRuns.SameSecondOvertakes | internal/gateway/task.go:237-242 | Of two tasks enqueued within one second the later one goes ahead if its id is smaller |
| TaskLaws.AheadShrinksExactly | internal/gateway/task.go:237-328 | For bare commits: exactly when none enqueues a smaller key or revives a finished task |
| TaskLaws.ClaimServesInOrder | internal/gateway/task.go:237-276 | A granted claim on a waiting task's project takes that task or one ahead of it |
| TaskLaws.LeaseWindow | internal/gateway/task.go:318-328 | A lease of L from t is never reaped up to t+L and always from t+L+1s, seconds being truncated on both sides |
| TaskLaws.HeldThroughRun | internal/gateway/task.go:253-258 | Against any commits by others before the deadline, the task stays with its worker in its state |
| TaskLaws.RunningLeavesExactly | internal/gateway/task.go:185-328 | Against commits that write no state of k, a running k leaves its run exactly when a granted claim commits past its stored lease |
| TaskLaws.FinishLandsExactly | internal/gateway/task.go:185-199 | Over any run of such commits a dispatch's Finish is accepted, closing its own worker's run, exactly when no granted claim came past the lease since it started |
| TaskLaws.DispatchFinishesItsOwnClaimExactly | internal/gateway/dispatch.go:64-144 | Against commits that leave the state of k to its dispatch: it starts and finishes exactly when no granted claim came past the lease, neither before its start nor after it |
| TaskDispatchers.OwnUntilLapsedExactly | internal/gateway/dispatch.go:64-144 | Among any number of dispatchers, late ones included, whose starts and finishes may hit any row they have in hand, a dispatcher's claim stays its own in every state exactly until a claim is granted past its lease; its own start and heartbeats may come in between |
| TaskDispatchers.FinishesItsOwnClaimExactly | internal/gateway/task.go:185-199 | Among such dispatchers, a dispatch that comes to its finish has held its own claim throughout and closes it exactly when no claim was granted past its lease |
| TaskDispatchers.ClaimIsOwnExactly | internal/gateway/task.go:202-283 | A granted claim is the dispatcher's own exactly when no late dispatcher still has its row in hand |
| TaskLaws.NothingLapsesInTime | internal/gateway/task.go:318-328 | No commit made by the deadline is such a claim |
| TaskLaws.DispatchWithinLeaseFinishesItsOwnClaim | internal/gateway/dispatch.go:64-104 | A dispatch that finishes within its lease has both its moves accepted and finishes its own claim, no other worker ever holding the task |
| TaskLaws.HeartbeatRenews | internal/gateway/task.go:286-315 | A heartbeat within the lease is accepted and renews it |
| TaskLaws.HeartbeatsKeepTheTask | internal/gateway/task.go:277-283 | Beating at the interval the claim names, one beat in two missed at most, keeps the task through any run |
| TaskMeaning.BeatingByTheGrantKeepsTheTask | internal/gateway/task.go:268-315 | A claimer that beats within twice the interval of its grant keeps its task through any number of beats |
| TaskRuns.LapsedTaskIsTakenOver | internal/gateway/task.go:218-276 | From an empty queue: a second past its lease, a running task goes to the next claimer |
| TaskRuns.LateFinishCompletesAnotherClaim | internal/gateway/task.go:185-199 | From an empty queue: Finish takes no worker, so a late dispatch completes another worker's run, and that worker's own finish is refused |
| TaskDispatchers.LateFinishEndsAnothersClaim | internal/gateway/task.go:185-199 | The same as a run of dispatchers in which the claim lapses, from the one claimed row that AloneHolds reaches from an empty queue: the late finish closes the run that the other dispatcher still has in hand |
| MailOutbox.Backoff | internal/mailer/retry.go:18-25 | The doubling loop computes min(15 * 2^(n-1), 3600) seconds |
| MailOutbox.BackoffGrows | internal/mailer/retry.go:6-25 | The wait never shrinks and reaches an hour at the ninth failure |
| MailOutbox.NextDue | internal/hub/mail_outbox.go:114-130 | The due row with the least (available_at, id), none exactly when nothing is due |
| MailMeaning.ClaimMeans | internal/hub/mail_outbox.go:88-130 | A claim takes, of the rows that wait and are due or were claimed 300 seconds ago or more, the longest available, and writes its status and claim time alone |
| MailMeaning.LetterMeans | internal/hub/mail_outbox.go:43-62 | A letter is taken exactly when kind, address, subject and one of the bodies say something; else the first that does not is named |
| MailMeaning.NewMailMeans | internal/hub/mail_outbox.go:63-84 | A new row is trimmed, has failed nothing, and is due at once |
| MailMeaning.SentMeans | internal/hub/mail_outbox.go:170-176 | A sent row keeps its provider's id and time, and no error |
| MailMeaning.FailedMeans | internal/hub/mail_outbox.go:178-201 | The n-th failure makes a row wait 15, 30, 60, 120, 240, 480, 960 seconds; the eighth gives it up; the error is kept and nothing else of it moves |
| MailMeaning.ErrorTextMeans | internal/hub/mail_outbox.go:183-190 | The first 512 bytes of the error, or all of it |
| MailOutbox.Outbox.EnqueueMail | internal/hub/mail_outbox.go:43-84 | Blank fields are refused in order; otherwise one pending row due at once |
| MailOutbox.Outbox.ClaimDueMail | internal/hub/mail_outbox.go:88-130 | Marks the next due row sending as of now |
| MailOutbox.Outbox.MarkMailFailed | internal/hub/mail_outbox.go:178-201 | The count is read first and written back later with any statements of others in between; the error is cut to 512 bytes, and the row waits or is given up by that count, unless it was purged meanwhile |
| MailOutbox.Outbox.PurgeMailOutbox | internal/hub/mail_outbox.go:216-223 | Deletes exactly the rows created 2592000 seconds ago or earlier, whatever their status, leaves the others as they are, and counts |
| MailMeaning.RowsLiveThirtyDaysExactly | internal/hub/mail_outbox.go:216-223 | Whatever any number of drainers do, a row keeps its letter and birthday, and is gone after a run exactly when the run purged 30 days, by the table's seconds, or more after its enqueue |
| MailMeaning.NoRowDiesYoung | internal/hub/mail_outbox.go:216-223 | By the clock that is never sooner than 30 days but for a fraction of a second |
| MailOutbox.Outbox.DrainOnce | internal/hub/mail_drain.go:14-40 | One claim, one send and one mark as of the same instant, with any statements of others while the mail is sent and between the two statements of a failed mark |
| MailDrainers.ReclaimWindow | internal/hub/mail_outbox.go:88-130 | A sending row is never reclaimed within 299 s of its claim and always from 300 s on |
| MailDrainers.StepKeepsInvExactly | internal/hub/mail_outbox.go:88-223 | No row in two hands, each drainer's row still its own, failure counts by status, backoff from the last claim: every step of any drainer keeps all of it, except exactly a claim of a row that is still held |
| MailDrainers.RunKeepsInvExactly | internal/hub/mail_outbox.go:88-223 | However long sends take, that holds throughout a run exactly when no claim takes a row that is still held |
| MailDrainers.OwnUntilRetakenExactly | internal/hub/mail_outbox.go:88-130 | From its claim on, whatever the others do, a drainer stays alone with its row, unchanged or purged, exactly until a claim takes that row again, 300 of the table's seconds later at the earliest |
| MailDrainers.StepCommits | internal/hub/mail_outbox.go:43-223 | Every step of this system is one of the statements the store's methods may meet between two of their own |
| MailDrainers.PromptRunIsSafe | internal/hub/mail_drain.go:14-40 | With any number of drainers, if every send is marked within 299 s of its claim then throughout the run sent and dead rows stay put and each claim takes a free row after its whole waiting time |
| MailDrainers.StartsSafe | internal/hub/mail_outbox.go:43-84 | The empty outbox satisfies that invariant, so every run from it does |
| MailDrainers.InvMeans | internal/hub/mail_outbox.go:178-201 | No row is held twice; a row is dead exactly at eight failures and has fewer otherwise |
| MailDrainers.ClaimIsSpaced | internal/hub/mail_outbox.go:114-130 | By the table's seconds, the claim after the k-th failure comes at least min(15 * 2^(k-1), 3600) seconds after the previous one |
| MailDrainers.ClaimIsSpacedInTime | internal/hub/mail_outbox.go:114-130 | By the clock, which the table truncates, the wait falls short of that by less than a second |
| MailDrainers.SentIsRevivedExactly | internal/hub/mail_outbox.go:178-201 | With no promptness assumed, the failed mark of a drainer holding a sent row is the only step that revives one |
| MailDrainers.RevivalTakesAReclaim | internal/hub/mail_outbox.go:88-201 | and from a claim such a mark arises only after the row was claimed again, 300 of the table's seconds later at the earliest |
| MailDrainers.LateMarkRevivesSentMail | internal/hub/mail_outbox.go:170-201 | From an empty outbox: a mark made after 300 s puts a row that another drainer sent back in the queue |
| GgufHeader.ParseGGUFHeader | internal/hub/hf.go:397-454 | The offset loop computes the specified result, partial answers on an error included, and counts its string reads |
| GgufHeader.GgufSkip | internal/hub/hf.go:476-511 | The offset loop computes the skip over one value; GgufLaws.ReadsValue says that it ends where the format says the value ends |
| GgufHeader.FindSub | internal/hub/hf.go:422-424 | The substring test behind context_length |
| GgufLaws.PrefixStable | internal/hub/hf.go:369-391 | What a window answers without an error, every longer window and the whole file answer too |
| GgufLaws.WindowParses | internal/hub/hf.go:359-391 | Any window of an encoded file that reaches past the first tokenizer key answers the last architecture and last context length before it |
| GgufLaws.ShortWindowIsTruncated | internal/hub/hf.go:397-454 | A window of a file with a tokenizer key that ends before that key's type is answered with an error, and with what the pairs read whole say |
| GgufLaws.NoHeaderNoFile | internal/hub/hf.go:397-401 | Not a GGUF file exactly for fewer than 24 bytes or another magic |
| GgufLaws.ContextIsDocumentedExactly | internal/hub/hf.go:413-447 | The parser answers the value of the documented key, architecture + ".context_length", exactly when no key before the tokenizer contains context_length, or the last that does is that key or carries that value |
| GgufLaws.KeysDecideExactly | internal/hub/hf.go:413-447 | For given keys, it answers the documented length whatever the lengths are exactly when no key before the tokenizer contains context_length, or the last that does is the documented one |
| GgufLaws.StretchedModelAnswersTheWrongKey | internal/hub/hf.go:413-447 | With llama.context_length followed by llama.rope.scaling.original_context_length it answers the latter |
| GgufLaws.ParseInvertsEncode | internal/hub/hf.go:397-454 | The whole file, encoded per the GGUF specification, section "File Structure", answers the same |
| GgufLaws.ParseWorkBounded | internal/hub/hf.go:397-511 | The count the parser's loops keep is at most (n - 24) / 8 + 1 string reads on n bytes, whatever the file declares |
| GgufLaws.NotedAllIsLast | internal/hub/hf.go:413-447 | Overwriting in turn keeps the last of each kind |
| GgufLaws.ReadsValue | internal/hub/hf.go:412-450 | Every value of every type of the format, by the format's own numbers and sizes, is read or skipped exactly to its end |
| GgufLaws.KindsAgree | internal/hub/hf.go:470-472 | The parser's table gives each of the eleven scalar types of the format its size |
| GgufLaws.NestedArraysSkipExactly | internal/hub/hf.go:484-504 | An array of arrays is skipped to its end exactly when it is empty |
| GgufLaws.UnknownTypesAreEight | internal/hub/hf.go:505-510 | A type the format does not have is taken for eight bytes |
| GgufLaws.LittleInvertsLE | internal/hub/hf.go:457-468 | Little-endian reading inverts writing |
| Membership.Owners | internal/authz/membership.go:16-24 | The counting loop counts the owners |
| MembershipLaws.RunKeepsOwner | internal/authz/membership.go:40-111 | Over any run of role changes, removals, invites and acceptances an organization with an owner keeps one |
| MembershipLaws.WriteLosesLastOwnerExactly | internal/hub/store.go:2576-2589 | A write leaves an organization without an owner exactly when it unmakes its only one |
| MembershipLaws.OnlyOwnersMoveOwners | internal/authz/membership.go:40-111 | The set of owners moves only by an owner's hand, or by an invitation an owner minted |
| MembershipLaws.RunMovesOwnersByOwners | internal/authz/membership.go:40-111 | The same at every step of any run |
| MembershipMeaning.RunMovesByAdmins | internal/authz/membership.go:40-111 | At every step of any run, whose row of a roster moved was moved by an admin or an owner of that organization, left on their own, or joined by a live invitation; a token must list the administration of that organization as a whole |
| MembershipMeaning.RoleChangeMeans | internal/authz/membership.go:40-65 | A role change is allowed exactly to admins and owners, on members, to a known role; ownership moves by owners only and the last owner keeps it |
| MembershipMeaning.RemovalMeans | internal/authz/membership.go:85-111 | A removal is allowed exactly to oneself and to admins and owners; an owner goes by an owner's hand or their own, the last one never |
| MembershipMeaning.InviteMeans | internal/authz/membership.go:74-86 | An invitation is minted exactly by admins and owners, to ownership by owners |
| MembershipMeaning.RefusalsMean | internal/authz/membership.go:40-111 | Permission comes before existence: who may not administer is refused as such, whoever is in the roster |
| MembershipMeaning.InvitationsComeFromAdmins | internal/hub/invite.go:139-184 | A new invitation comes from an admin or owner of its organization, one to ownership from an owner, by a session or a token that lists it |
| MembershipMeaning.AcceptMeans | internal/hub/invite_store.go:124-182 | An invitation is accepted exactly when unused, in time and with room; it gives its role to who has none, once |
| MembershipMeaning.MintingRetires | internal/hub/invite_store.go:38-75 | A new invitation retires every open one to the same address in the same organization, and no other |
| MembershipMeaning.RolesMean | internal/authz/authz.go:220-243 | Inside an organization only the role there counts: thirteen verbs for every member, eight for admins and owners, deletion for owners |
| MembershipMeaning.PlatformMeans | internal/authz/authz.go:200-211 | Outside every organization only the platform's account, and only the ten verbs that exist there |
| MembershipMeaning.TokensMean | internal/authz/grant.go:60-131 | A token does exactly what its account may, what it lists, and what lies within its bounds |
| MembershipLaws.InvitationMakesOwnerExactly | internal/hub/invite_store.go:124-182 | An accepted invitation makes an owner exactly when it is live, to ownership and there is room, whatever its minter has become |
| MembershipLaws.RemovedOwnersInvitationStands | internal/hub/invite_store.go:124-182 | An owner invites, is removed by another, and the invited account becomes an owner all the same |
| MembershipLaws.StepKeepsOwnersInvite | internal/authz/membership.go:74-84 | Every stored invitation to ownership was minted by an owner |
| MembershipLaws.TwoOwnersLeavingAtOnce | internal/hub/admin.go:211-237 | The check and the write are apart: two owners leaving on one roster leave nobody |
| MembershipLaws.TwoOwnersSteppingDownAtOnce | internal/hub/admin.go:171-206 | Two owners stepping down on one roster leave nobody, either |
| MembershipLaws.DelayedWritesKeepOwnerExactly | internal/hub/admin.go:171-237 | Over any run in which removals and role changes land after their decisions, an organization keeps an owner throughout exactly when none lands on the only owner left |
| MembershipLaws.FreshDecisionsSpare | internal/hub/admin.go:171-237 | A decision taken on a roster with the owners its write will meet never does |
| MembershipLaws.StrongerRoleAllowsMore | internal/authz/authz.go:57-57 | Whatever a role may do to members, every stronger role may do |
| MembershipLaws.LeavingEndsTokens | internal/authz/grant.go:49-75 | Leaving an organization ends the reach there of every token the account minted |
| Scopes.FormatScopes | internal/authz/grant.go:162-175 | The dedup loop, sort and join print the canonical list |
| Scopes.ParseScopes | internal/authz/grant.go:139-157 | The loop refuses exactly the lists with an unknown scope and otherwise sorts without repeats |
| Scopes.FormatIsCanonical | internal/authz/grant.go:159-175 | Two lists of non-empty scopes without a space print alike exactly when they are equal as sets |
| Scopes.StoredTextsAreCanonical | internal/authz/grant.go:159-175 | So do any two lists that a project token or an installation token may carry |
| Scopes.SameSetPrintsSame | internal/authz/grant.go:159-175 | Equal sets print alike, whatever their words |
| Scopes.ParseInvertsFormat | internal/authz/grant.go:139-175 | A printed list of grantable scopes parses back, sorted and without repeats |
| Scopes.StoredTextIsFixed | internal/authz/grant.go:134-157 | What parsed once prints and parses to itself |
| Scopes.SpacedScopesPrintAlike | internal/authz/grant.go:159-175 | Outside those, a scope that is two others in order with a space between prints like the two |
| Scopes.ReadsAloneExactly | internal/authz/grant.go:159-175 | Over all scopes whatever, one scope's text is that of no other set exactly when it is not empty and falls apart at no space into two in order |
| Scopes.GrantableIsWord | internal/authz/authz.go:220-243 | No grantable scope holds a space |
| Sentinel.CheckNonce | internal/completion/sentinel.go:126-138 | The loop accepts exactly 16 to 64 lower-case hex digits |
| Sentinel.MatchOutput | internal/completion/sentinel.go:146-162 | The walk back over the matches computes the specified answer |
| SentinelLaws.MatchIsLastMarker | internal/completion/sentinel.go:146-162 | Over any text, Match is the exit code of the last place where a marker of this nonce stands |
| SentinelLaws.FoundIsLast | internal/completion/sentinel.go:150-161 | Leftmost non-overlapping matching misses no marker |
| SentinelLaws.FrontOfSpelled | internal/completion/sentinel.go:19-21 | The pattern finds every spelled marker |
| SentinelLaws.FrontIsSpelled | internal/completion/sentinel.go:19-21 | and nothing else |
| SentinelLaws.LastMarkerPlace | internal/completion/sentinel.go:145-162 | A reporting place with none after it is the answer |
| SentinelLaws.LastMarkerNone | internal/completion/sentinel.go:145-162 | No answer exactly when no place reports |
| SentinelLaws.MatchInvertsMarker | internal/completion/sentinel.go:141-162 | Match reads a marker's exit code back in any text whose tail does not report |
| SentinelLaws.PrintedCodeIsMatched | internal/completion/sentinel.go:141-179 | The exit code a Unix wrapper prints by its printf format is the one Match reads, whatever came before and whatever is silent after |
| SentinelLaws.UnixWrapperMeans | internal/completion/sentinel.go:172-175 | The wrapper without a done file runs the command and prints its exit code by that format |
| SentinelLaws.EchoNeverCounts | internal/completion/sentinel.go:165-195 | For every nonce, the minted one included: a wrapper matches it exactly when the command or a path does, and if none does, echoed in front of output it changes no answer |
| SentinelLaws.UnixWrapperIsFree | internal/completion/sentinel.go:172-179 | A marker of a nonce reports in the Unix wrapper exactly when one does in its command or a path |
| SentinelLaws.PowerShellWrapperIsFree | internal/completion/sentinel.go:187-195 | and likewise in the PowerShell wrapper |
| Decimal.AtoiInvertsItoa | internal/completion/sentinel.go:141-158 | A printed exit code reads back, or overflows, exactly by the int64 range |
| Quoting.ShellQuoteRoundTrips | internal/completion/sentinel.go:197-199 | For every string and whatever follows, lexing by POSIX.1-2017, Shell Command Language, sections 2.2 and 2.3 reads the quoted form back to the string and goes on with what follows |
| Quoting.ShellQuoteIsOneWordExactly | internal/completion/sentinel.go:197-199 | It is a word of its own exactly when nothing follows, or a blank, a newline or an operator character does |
| Quoting.PowershellQuoteRoundTrips | internal/completion/sentinel.go:201-203 | The doubled form reads back likewise |
| Resolvers.Registry.Resolve | internal/completion/registry.go:77-96 | The walk over the map, with a select that takes either of a ready channel and a done context, answers as some order of the resolvers can |
| Resolvers.Registry.Register | internal/completion/registry.go:25-34 | Adds one resolver under its own name |
| Resolvers.OrderFreeExactly | internal/completion/registry.go:77-96 | What the walk can answer is the same in every order exactly when every resolver that stops it can end it in all the ways any resolver can |
| Resolvers.OneReporter | internal/gateway/dispatch.go:153-188 | For every run the gateway builds, at most one resolver can end the walk, and none has to wait |
| Resolvers.GatewayOrderNeverShows | internal/gateway/dispatch.go:153-188 | so every order allows the same answers |
| Resolvers.SupervisedRunsResolve | internal/gateway/dispatch.go:153-171 | Exec and process runs end with the agent's exit code, or, exactly if the context is done by then, possibly with its error |
| Resolvers.ReportsMean | internal/completion/exec.go:36-55 | What an agent reports is reported whole: done, its exit code, how it was run, high trust |
| Resolvers.AskedMeans | internal/completion/registry.go:77-96 | Which resolver is asked for which launch mode, and exactly when it has nothing to go by |
| Resolvers.SendKeysResolvesExactly | internal/gateway/dispatch.go:173-188 | A pane run resolves exactly by a done file that is not blank, or without one by its marker, a done context aside; a blank done file hides a marker |
| Resolvers.BlankDoneFileHidesMarker | internal/gateway/dispatch.go:173-188 | A marker that decides the run on its own is not read beside a done file of one blank |
| Resolvers.DoneFileRoundTrips | internal/completion/file.go:80-166 | The exit code written to a done file is the one read back |
| Resolvers.DoneFileMeans | internal/completion/file.go:120-166 | A done file is done whatever it says: a number is its exit code, else what it reads as JSON, else exit code 1 |
| RateLimiter.Limiter.AllowAddress | internal/hub/auth.go:125-147 | Counts the call in its address's window, after evicting expired windows when there are many |
| RateLimiter.Limiter.Evict | internal/hub/auth.go:135-141 | The loop drops exactly the expired windows |
| RateLimiter.EvictionCannotBeSeen | internal/hub/auth.go:133-147 | For every run of calls under a clock that does not run back, the limiter answers as one that never evicts |
| RateLimiter.AtMostTwentyAMinute | internal/hub/auth.go:116-147 | No closed minute, wherever it lies, admits more than twenty calls of one address |
| RateLimiter.AtMostTenAWindow | internal/hub/auth.go:116-147 | From any tables, evictions included, the window a call opens admits at most ten |
| RateLimiter.WindowsLastAMinute | internal/hub/auth.go:142-147 | Within a minute of its first call a window counts on and admits while it has counted fewer than ten; after it the next call opens another |
| RateLimiter.OthersAreDroppedExactly | internal/hub/auth.go:133-147 | A call drops another address's window exactly when the table holds more than 1024 and that one is over a minute old; it changes no other |
| RateLimiter.TablesStaySmall | internal/hub/auth.go:133-141 | The table holds 1025 windows at most, or none that is over |
| RateLimiter.FreshWindowAdmits | internal/hub/auth.go:142-147 | and refuses nobody before ten |

## Left out

- HTTP, tokens, WebSockets, TLS, the clients of outside services, the SQL engine and its migrations: a transaction
  is one step, a refused one changes nothing.
- Postgres: the mail claim is SQLite's; `FOR UPDATE SKIP LOCKED` may pass over a locked row and take a later one.
- Spelling of purposes, editions and quants: what their parsers answer is a parameter of the writes.
- The order of lists in a manifest: rows are maps by key, so `ORDER BY` on organizations and staff is not modelled.
- CreateBox and EnsureSeedNarrator are one atomic step; the creation time of boxes and organizations is not kept.
- The JSON form of a manifest, and the parts of it that are constants.
- EnsureSeedStaff, and the literal seed rows: the seed list is a parameter with distinct ids and valid file lists.
- EnsureSeedModels and EnsureSeedAssignments run alone: they belong to the opening of the store, before other writers.
- SetBoxLimit reads the box and writes in one step; a box deleted in between would only keep an orphan row.
- CreateOrg and EnsureSeedLimits are steps of the runs, without a method of their own on the store.
- ListTasks, ListQueued, MailByID and the other plain reads.
- TaskTable.IsId: only the kind in front of an id is checked, not the UUID behind it.
- RunClaimed: the call to the agent and its 60 s bound are one answer; the lease theorem asks only that the moves
  come by the deadline.
- SetState and Finish are one step each in the class; TaskLaws' runs of commits and TaskDispatchers take their reads
  and writes apart.
- ParseGGUFHeader: lengths are unbounded; Go's wrap-around on lengths of 2^63 and more is not modelled; arrays of
  arrays are outside the encoder theorem, their skip is GgufLaws.NestedArraysSkipExactly.
- Membership.Apply: role changes, removals and invites are modelled on values, not on a class; plan limits,
  and the lookup of an invited address among the members, are the flag `room`; the account row an invitation may
  create is left out.
- ParseInstallationScopes mirrors ParseScopes over another list; roles of projects are not modelled.
- Sentinel.Match and the lexers work on characters, where the source works on bytes.
- PowershellQuoteRoundTrips: the lexer knows the ASCII apostrophe only; PowerShell also accepts typographic quotes.
- WrapUnixDone and WrapPowerShellDone take the done file's directory and path as given: filepath.Dir and ToSlash are
  not modelled.
- Registry.Resolve: a resolver whose channel and context both stay silent blocks the source for good; here each answer comes.
- ShellQuoteRoundTrips: an expansion, or a quote left open, in what follows reads as no word; aliases are not modelled.
- The polling watchers of the file, process and sentinel resolvers, and JSON done files, are parameters.
- AllowAddress: net.SplitHostPort is a parameter; the lock makes each call one step.
- UpdateBox, SetLimit and ClearLimit, ClearAssignment, and the other store methods without a row above are
  proved equal to their functions in BoxWrites, whose meaning WriteMeaning states.
