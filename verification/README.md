# patch-operator: a verified model

The operator lets many contributors (`ResourcePatch`, `ClusterResourcePatch`) own slices of one shared
Kubernetes object. This project models the parts of it that decide what the object holds and when it may
go, and proves what they keep:

- **The client-side apply and revert engine.** A contribution is split into leaf paths; each is written
  into the live JSON tree, what it overwrote is remembered, and a release restores or deletes path by path.
- **The tracker's pass.** Records are carried forward and sorted, contributors being deleted are released
  first, conflicts are detected over all contributions, each remaining contributor applies or yields, and
  the stored list is the reference count.
- **Promotion.** A namespaced tracker is replaced by a cluster tracker in four steps, with a crash point
  after every API write.
- **Lifecycles.** Contributors come and go, with finalizers, the creator on record, and the deletion of
  the target.

## How it is built

| files | what they hold |
|---|---|
| `Text`, `Json`, `FieldPath`, `Document`, `FieldLaws`, `Positions`, `SetLimits`, `PathText`, `NumericKeys` | JSON trees, paths, `Get`/`Set`/`Delete` with pruning, the path notation, integer merge keys |
| `ClientSideApply`, `SeedMerge`, `ApplyLaws`, `ApplyRuns`, `ApplyLoss`, `CreateLaws`, `TornClaims` | the applier, the laws of one call, whole runs, and where bookkeeping is lost |
| `TreeCore`, `UndoneTrees`, `SolidTrees`, `UndoneRuns` | the tree a whole run leaves, beyond what it reads |
| `Render`, `RenderLaws`, `Claims`, `Recompose`, `DeleteUndoesSet`, `JsonPointer` | leaf paths, rebuilding from them, exact undo, RFC 6901 pointers |
| `Trackers`, `Adoption`, `Promotion`, `PromotionLaws`, `Succession`, `Creators`, `CarryOver`, `Operator` | tracker statuses, the copy to a successor, the promotion protocol, and what of the state survives it |
| `Sorting`, `Ordering`, `Listing`, `Conflicts`, `TrackerPass`, `Reconciler`, `PassLaws`, `Reports`, `Arbitration`, `Precedence` | one pass of a tracker |
| `PassRuns`, `Rounds`, `SecondPass`, `Lifecycle`, `LifecycleLaws`, `Finalizers`, `Orphans` | many passes, and whole lives |

Code that works by changing things step by step is modelled by classes and methods with loops
(`Document`, `Applier`, `PathList`, `StatusDraft`, `Operator`, `TrackerReconciler`, the sorts and parsers).
Each method is proved equal to a function of the old state, and the laws are lemmas about those functions.
Every lemma turns automatic induction off, so each induction is written out.

A position in a document is observed by `FieldLaws.Look`: all the values found at a path, where a last
key match may find several elements. `Get` is the first of them, `Set` replaces it, `Delete` drops it. That
makes the laws hold without assuming that merge keys are distinct in the live object.

Two conditions recur. `ApplyRuns.Apart`: the paths contributors may claim start at a field, can be printed
and read back, use no list positions, and diverge pairwise, at different fields or at one key with different
values. `Printable`: names without `.` or `[`, keys without `=` or `]`, key values without `]`.

In `Promotion` every reconcile call runs alone and reads the current state, but may die after any API
write: a call has a number of writes it may still make. In `Lifecycle` every call runs alone and whole.

## Where the code falls short of its description

Each of these is a lemma with the exact condition, and with runs from the start where states must be reached.

- `Path.String` and `Parse` undo each other on printable paths only (`ParseUndoesPrint`). A claim on a field
  path with a `.` or `[` in a name, such as most annotations, is stored as text that names another path. If its
  release goes through, the claimed value stays, on every document, unless another claim's text is read back as a
  path along it: beside a claim `.x`, which is read back as `x`, the field `a.b` of `x` goes with all of `x`
  (`TornExactly`, for claims of which none covers another). A claim whose last name ends in a dot keeps its whole record from ever being
  released (`TrailingDotNeverReleases`).
- A contribution's numbers are float64 and the live object's int64, and `%v` prints them alike below a million
  only (`TextsAgree`). An element claimed by a larger integer key is appended again by every apply, and the
  release, reporting success, removes none of them (`NumericKeysAppend`).
- Claims by list position are released one after the other, and each release moves the elements behind it up. With no
  priors, exactly the claimed elements go if and only if at most one claimed position is in the list; otherwise the
  second claimed element stays (`PositionsReleased`, for positions in ascending order). A contributor that brings a list
  of two without a merge key leaves its second element behind on every document (`ListOfTwoStays`).
- A set can show at a path that diverges from its own: an appended list element comes with its key, so the
  key's own field now reads (`SetFrameExactly`, which shows it is the only case).
- A path first claimed after the first apply, or claimed again, or whose value the contributor found
  already there, is not remembered, and its release removes what was there before (`ReleaseGivesBack`,
  which counts these).
- When the bookkeeping of a first apply is lost and the contribution is edited before the second, the
  first value is recorded as what was there before, and stays (`LostThenReleased`). When the target is deleted
  and made again, a contributor's release puts values of the old object into the new one
  (`RecreatedThenReleased`).
- Releasing the contributor that created the target removes the value in front at every path it claims, the
  base's included (`CreatedThenReleased`).
- Policy `Fail` stops nobody under client-side apply; the last contributor in order that does not yield has the
  last word (`LastClaimantWins`).
- A contributor whose fields a pass leaves on the target can go next without giving them back if and only if the
  pass was not safe for it (`PassPinsExactly`, `LetGoExactly`); if all its passes are, it never does so
  (`NobodyGoesHoldingFields`). Runs from the start show three ways:
  somebody else's patch does not render (`RenderErrorOrphans`), the status write of its first pass is lost
  (`LostStatusOrphans`), or a leftover tracker lists it before it has its finalizer (`UnpinnedWriterOrphans`).
- A tracker whose contributors have all gone, with somebody on record, is deleted only if somebody new arrives
  (`AbandonedExactly`; `AbandonedIsReachable` has a run that leaves one).
- After a promotion the cluster tracker names the retired one's creator if and only if it is the tracker the copy
  went into (`CreatorSurvivesExactly`). Once adoption is flagged no second copy is made, so all is lost when that
  tracker goes first: deleted from outside (`DeletedSuccessorLosesState`), or, with no deletion from outside, by its
  own pass that finds nobody (`EmptySuccessorLosesState`).
- While the tracker copied into stands, it has a contributor's path on record, prior included, as the retired one had
  it, if and only if the last list it has stored since does; if it has stored none, if and only if it had no record
  of its own in the way when the copy was made (`SurvivorHoldsExactly`). One pass over a patch that does not render
  stores an empty list, and every path is forgotten (`UnrenderedPassLosesRecords`). Any completed pass carries what its
  contributors still own, but for the priors of the one that has made a missing target again (`PassCarriesExactly`).
- A crash between the creation of the target and the write that records it leaves the target without a creator
  for good (`CrashForgetsCreator`). Two trackers can name two creators once the target was deleted in between
  (`TwoCreatorsAfterDeletion`).
- If the process dies between the successor's creation and the copy, and the successor makes a pass first,
  the predecessor's priors of a contributor survive if and only if the successor's record of it is missing or not
  flagged as captured, or holds the same (`PassBetweenCreateAndCopy`). If calls interleaved, a second writer
  could arise (`UnfencingBetweenFenceAndCreate`), exactly where the namespaced tracker is found unfenced
  (`ResumedCreationExactly`). A copy repeated after a crash changes nothing exactly when
  recorded priors are flagged as captured (`AdoptTwice`).

## Model

| member | source | states |
|---|---|---|
| Documents.FindByKeyLoop | internal/render/fieldpath.go:408-419 | the first element whose key prints as the value, or -1 |
| Documents.SetIn | internal/render/fieldpath.go:226-260 | writing below a map: what is made on the way, what fails, and what a failure leaves |
| Documents.SetInList | internal/render/fieldpath.go:262-303 | writing below a list: growing to a position, appending a keyed element, and losing what a failing set appended |
| Documents.DeleteIn | internal/render/fieldpath.go:321-354 | removing below a map, and whether anything was |
| Documents.DeleteInList | internal/render/fieldpath.go:356-387 | removing one element of a list, or below it |
| Documents.Document.Get | internal/render/fieldpath.go:178-210 | the walk along the path is the recursive reading, with every miss reported |
| Documents.Document.Set | internal/render/fieldpath.go:216-303 | the tree and the error after a set, including what a failing set has already written |
| Documents.Document.Delete | internal/render/fieldpath.go:310-387 | the tree after a delete and its pruning, and whether anything was removed |
| Documents.Document.PruneEmpty | internal/render/fieldpath.go:390-405 | emptied maps go, deepest first, stopping at the first that is not empty |
| FieldLaws.GetIsFirst | internal/render/fieldpath.go:178-210 | reading a path gives the first of all the values found there |
| FieldLaws.SetLaws | internal/render/fieldpath.go:216-303 | after a set the path reads the value, further matches stay, and every path that diverges reads as before |
| FieldLaws.SetFrameExactly | internal/render/fieldpath.go:216-303 | a set shows at a diverging path if and only if that path is the key field of an element the set appended |
| FieldLaws.DeleteLaws | internal/render/fieldpath.go:310-405 | after a delete the path has lost its first value only, and every path that diverges reads as before, pruning included |
| FieldLaws.FoundThenSettable | internal/apply/csa.go:255-261 | a path that can be read can be set, so a recorded prior can always be put back |
| FieldLaws.SetSame | internal/render/fieldpath.go:216-303 | setting a path to what it reads changes nothing |
| Positions.DeletePosition | internal/render/fieldpath.go:356-387 | deleting position i of a list leaves every element before it in place and moves every one behind it up by one, prunes nothing, and shows at no path that parts from the list's own, at another field, position or key value |
| Positions.SetPosition | internal/render/fieldpath.go:262-303 | setting a position puts the value there, keeps the other elements, fills up to it with empty maps, and shows at no path that parts from the list's own |
| Positions.RevertPositions | internal/apply/csa.go:225-264 | a release of claimed positions withdraws them from the list one after the other, a prior going back in place, and shows nowhere else |
| Positions.PositionsReleased | internal/apply/csa.go:225-264 | of ascending positions without priors it takes the elements at each position raised by the number of releases before it: exactly the claimed ones if and only if at most one is in the list, and otherwise the second stays |
| Positions.ListOfTwoStays | internal/apply/csa.go:225-264 | a contributor that brings a list of two by position leaves the second element after its release, on any document |
| SetLimits.SetSucceedsExactly | internal/render/fieldpath.go:226-303 | a set goes through if and only if each step finds the container it needs, null below the root, or nothing, and a missing list element is gone into by a field |
| SetLimits.FailedSetLeaves | internal/render/fieldpath.go:240-303 | a set that fails has left the tree as it was but for empty containers made on its way, and no list longer |
| DeleteUndoesSet.DeleteUndoesSet | internal/render/fieldpath.go:216-405 | setting an absent path and deleting it gives back exactly the same tree if and only if its way has no empty map, no null and no missing list element |
| PathText.PrintLoop | internal/render/fieldpath.go:59-81 | the builder loop writes the text of the path |
| PathText.ParseLoop | internal/render/fieldpath.go:114-166 | the index loop reads the path segment by segment, with every parse error |
| PathText.AtoiUndoesItoa | internal/render/fieldpath.go:74-76 | a list index in the 64-bit range reads back from its digits |
| PathText.ParseUndoesPrint | internal/render/fieldpath.go:57-166 | parsing the text of a path gives the path if and only if the path is printable |
| PathText.PrintUndoesParse | internal/render/fieldpath.go:57-166 | whatever text parses, printing and parsing again gives the same path |
| PathText.PrintIsInjective | internal/apply/csa.go:129-164 | on printable paths the text identifies the path, as the maps keyed by it need |
| ClientSideApply.Applier.CapturePriors | internal/apply/csa.go:129-157 | what is remembered: values found, not known already and different from the claim |
| ClientSideApply.Applier.RestoreOrDeleteIn | internal/apply/csa.go:254-264 | the prior goes back, or the path is deleted if there is none or it cannot go back |
| ClientSideApply.Applier.UpdateTarget | internal/apply/csa.go:115-208 | capture, withdraw, write: the object stored, the priors returned, and nothing written on failure |
| ClientSideApply.Applier.Create | internal/apply/csa.go:78-111 | a missing target becomes base and contribution merged, with no priors and the capture marked done |
| ClientSideApply.Applier.Apply | internal/apply/csa.go:54-111 | which path is taken, what each returns and stores, and that an error stores nothing |
| ClientSideApply.Applier.Revert | internal/apply/csa.go:214-234 | every owned path restored or deleted in order; nothing to do when the target is gone |
| ApplyLaws.RestoreLaws | internal/apply/csa.go:254-264 | withdrawing one path puts its prior in front or removes the value, and shows nowhere else |
| ApplyLaws.WithdrawLaws | internal/apply/csa.go:159-171 | exactly the paths no longer claimed are given back, and their priors forgotten |
| ApplyLaws.CaptureLaws | internal/apply/csa.go:133-157 | a path's prior is kept if known, taken if it differs from the claim, and otherwise stays absent |
| ApplyLaws.RevertLaws | internal/apply/csa.go:225-233 | a revert restores or empties every owned path and shows nowhere else |
| ApplyLaws.UpdateLaws | internal/apply/csa.go:115-208 | one apply at every path: claimed, dropped, or neither |
| ApplyRuns.StepLaws | internal/apply/csa.go:115-234 | one call moves each claimed path as one step of a small state machine, and no path outside the claims |
| ApplyRuns.RunLaws | internal/apply/csa.go:115-234 | any interleaving of calls, seen at one path, is a run of that state machine |
| ApplyRuns.AppliedReadsItsOwn | internal/apply/csa.go:173-183 | in every run a contributor still applied reads its own value at each of its paths, numbers being their text |
| ApplyRuns.ReleaseGivesBack | internal/apply/csa.go:115-264 | after a contributor's whole life each path holds what it held, less one value for every unremembered takeover; exactly when it is given back |
| ApplyRuns.ShrinkingClaimsAreRemembered | internal/apply/csa.go:122-171 | claims that only shrink and differ from what was found are never taken over unremembered |
| ApplyRuns.AllReleasedIsUndone | internal/apply/csa.go:115-264 | at every path of those that are released, in any order, interior key matches included, and at every path apart from all claims, the document reads as at first; `TreeComesBack` has the tree |
| TreeCore.SetKeepsCore | internal/render/fieldpath.go:216-303 | a set at a claim changes nothing but that claim, containers on the way aside, unless it brings back a claim that was there at first |
| TreeCore.WithdrawKeepsCore | internal/render/fieldpath.go:310-405 | nor does a delete, pruning included, of a claim that was not there at first |
| UndoneTrees.OneCoreIsAlike | internal/apply/csa.go:210-213 | trees that agree in all but the claims, and at the claims, are equal up to hollow containers on the way to claims |
| SolidTrees.OneCoreIsEqual | internal/apply/csa.go:210-213 | and exactly equal where no claim leaves a trace in either |
| UndoneRuns.TreeComesBack | internal/apply/csa.go:115-264 | once nobody is on record, after applies and releases in any order that took nothing over unremembered, the tree is the original, list elements and their order included, except that a container on the way to a claim may be empty, null or missing where it was another of these; and the original exactly where no claim leaves a trace |
| UndoneRuns.RenderedAreLeafClaims | internal/render/render.go:151-216 | index-free, printable claims as rendered have the shape that asks for: a key match ends a path |
| ApplyLoss.ReapplyChangesNothing | internal/apply/csa.go:127-193 | applying the same contribution again, whatever became of the bookkeeping, changes nothing and records no prior, numbers being their text |
| NumericKeys.TextsAgree | internal/render/render.go:197 | a float64 and an int64 that hold one integer print alike if and only if its magnitude is below a million |
| NumericKeys.FloatIsRead | internal/apply/csa.go:239-241 | whatever a contribution prints of an integer, the live object has its digits |
| NumericKeys.NumericKeysAppend | internal/render/fieldpath.go:408-419 | so any number of applies of a contribution whose claim is an element of a live list by an integer key leaves one element, which the claim reads and the release removes, or else one more each time, which it neither reads nor removes |
| ApplyLoss.RecreatedThenReleased | internal/apply/csa.go:133-171 | over a target deleted and made again, a contributor's release puts back the values found in the old one |
| ApplyLoss.LostThenReleased | internal/apply/csa.go:143-155 | after lost bookkeeping the second value never stays, and the first stays exactly if the contribution was edited |
| CreateLaws.CreatedThenReleased | internal/apply/csa.go:78-111 | releasing the creator takes the value in front at every claim, key matches included and base value or not, and leaves the rest of the merge |
| CreateLaws.CreatedFieldsReleased | internal/apply/csa.go:78-111 | so the fields it claimed are gone, and every other field reads the merge of base and contribution |
| TornClaims.TornExactly | internal/controller/tracker_controller.go:612-626 | after an apply and a release that take effect, of claims that turn off from one another, a claimed field path that fits path text, and that no other text is read back along, is given back or emptied; one that does not fit still reads the claimed value if and only if no other claim's text is read back as a path along it, but for a prior put back there that happens to hold that value |
| TornClaims.TrailingDotNeverReleases | internal/controller/tracker_controller.go:612-626 | a record of claims without brackets in their names is released if and only if no last name ends in a dot, and one that does keeps any record from being released, however often that is tried |
| SeedMerge.DeepMergeLoop | internal/apply/ssa.go:212-224 | the recursive overlay, in any order of keys, is the merge of the two maps |
| SeedMerge.MergeBaseAndContribution | internal/apply/ssa.go:198-205 | the merge, or an error when nothing is left to create |
| SeedMerge.DeepMergeIdempotent | internal/apply/ssa.go:212-224 | merging the same contribution again changes nothing, at any depth |
| SeedMerge.MergeReads | internal/apply/ssa.go:196-224 | what every field path reads after the merge: the contribution's value, the merged map, or the base's value where nothing was replaced |
| SeedMerge.ContributionWins | internal/apply/ssa.go:196-197 | a base never takes back a leaf the contribution sets |
| Render.PathList.CollectLeaves | internal/render/render.go:162-216 | the paths appended are the leaves of the value under the prefix |
| Claims.LeavesExactly | internal/render/render.go:151-216 | a path is claimed if and only if the walk by fields and positions, identity fields and keyed elements apart, ends there at a scalar or an empty container, or it names an element of a list so reached by the merge key declared at the list's own path |
| Claims.KeyedListClaims | internal/render/render.go:191-210 | of a list with a declared merge key, an element that carries the key is claimed by the key's value and by nothing else, any other by its own leaves under its position, and nothing more |
| Claims.UndeclaredListClaims | internal/render/render.go:191 | from a path with no declared merge key no claim goes on by a key match |
| Claims.LeavesInTextOrder | internal/render/render.go:218-222 | the claims are listed in the order of their texts |
| RenderLaws.LeavesPrefixFree | internal/render/render.go:151-216 | no leaf path is a proper prefix of another |
| RenderLaws.LeavesDiverge | internal/render/render.go:146-216 | two index-free leaf paths part at a field or at a key's value |
| RenderLaws.RenderedClaimsAreTerritory | internal/render/render.go:151-160 | the index-free, printable leaf paths of a contribution meet what the undo laws ask of claims |
| Recompose.LeavesDistinct | internal/render/render.go:151-216 | with distinct merge keys no leaf path is listed twice |
| Recompose.LeavesRebuild | internal/render/render.go:151-222 | setting the leaf paths one by one in any order rebuilds the object, exactly without merge keys and up to the order of keyed elements with them |
| JsonPointer.PointerTokens | internal/render/render.go:364-376 | the two replacements, one after the other, decode every pointer as one pass does |
| JsonPointer.TwoPassesAreOne | internal/render/render.go:371-373 | on any text replacing `~1` and then `~0` is the single pass of section 4 of RFC 6901 |
| JsonPointer.OrderMatters | internal/render/render.go:371 | the other order of replacements gives the same if and only if `~01` does not occur in the text |
| JsonPointer.TokensRoundTrip | internal/render/render.go:364-376 | every token list but the single empty token reads back from its pointer |
| Trackers.StatusDraft.FindContributor | api/v1alpha1/interfaces.go:141-148 | the first record of the same contributor, by UID when both have one |
| Trackers.StatusDraft.Write | internal/controller/tracker_controller.go:788-826 | the end-of-pass write: a given list replaces the stored one, the fence and what is known already stay |
| Trackers.StatusDraft.Provenance | internal/controller/tracker_controller.go:834-850 | the creation is recorded, and a creator on record is not replaced |
| Adoption.AdoptStatus | internal/controller/promotion.go:221-285 | the status after the copy, field by field and record by record |
| Adoption.AdoptKeepsAll | internal/controller/promotion.go:246-277 | every record of the successor stays in place with its capture, priors, paths, hash and manager, and every record it lacked is appended unaltered |
| Adoption.PredecessorIsRemembered | internal/controller/promotion.go:242-276 | each record of the predecessor is in the successor, whole if it had none; otherwise a captured record keeps its own priors, an uncaptured one has the predecessor's flag and recorded priors, and paths, hash and manager are its own or, if it had none, the predecessor's |
| Adoption.AdoptTwice | internal/controller/promotion.go:52-54 | copying twice is copying once if and only if the priors brought over are flagged as captured |
| Operator.Operator.FenceTracker | internal/controller/promotion.go:61-93 | the fence is one write, made once, and only on an unfenced tracker |
| Operator.Operator.EnsureSuccessor | internal/controller/promotion.go:157-215 | nothing once adopted; otherwise create if missing and copy |
| Operator.Operator.PromoteIfNeeded | internal/controller/promotion.go:55-123 | fence, create, copy, mark adopted, each write a crash point |
| Operator.Operator.EnsureTarget | internal/controller/contributor_controller.go:315-391 | joins, promotes, follows the fence or creates; never registers with a fenced tracker |
| Operator.Operator.Finish | internal/controller/promotion.go:291-339 | unfences if the successor is missing, waits for adoption, then drops the finalizer and deletes |
| PromotionLaws.AlwaysSound | internal/controller/promotion.go:34-54 | over every run with crashes, an unfenced namespaced tracker and a cluster tracker never coexist, and a tracker is retired only after its last state was copied and with a cluster tracker beside it, into which nothing else was ever copied |
| PromotionLaws.OneWriter | internal/controller/tracker_controller.go:83-90 | a step changes the target only if it is a pass of an unfenced tracker while the other is fenced or absent, so promotion never does |
| PromotionLaws.PromotionFinishes | internal/controller/promotion.go:52-54 | from every reachable state one uninterrupted join and one retirement end the promotion, for good unless the cluster tracker itself goes |
| PromotionLaws.UnfencingRestores | internal/controller/promotion.go:291-339 | a fence whose cluster tracker is missing is taken back, and the tracker is as it was before it but for its phase: exactly so if and only if that was Applied |
| Succession.RetirementKeepsState | internal/controller/promotion.go:140-155 | over every run, the cluster tracker beside a retired one still holds, if it is the one the state was copied into, its creator, the mark of the operator's creation, the base's hash, and every owned path, prior included, that the lists of its passes carry |
| Succession.TakenOverExactly | internal/controller/promotion.go:242-276 | the copy takes over a contributor's path with its prior if and only if the successor's record of it is missing, or owns no path or this one, and has not captured another prior |
| Succession.SurvivorHoldsExactly | internal/controller/promotion.go:157-215 | from the adoption on, while the tracker copied into stands, a path on record is on record there, prior included, if and only if the last list it has stored since has it so, or, with none stored, the copy took it over |
| Succession.UnrenderedPassLosesRecords | internal/controller/tracker_controller.go:400-406 | a run in which a pass over a patch that does not render empties the list of the tracker copied into, and the other retires |
| CarryOver.PassCarriesExactly | internal/controller/tracker_controller.go:331-356 | a completed pass carries a path on record, prior included, if and only if its contributor still owns it, having written it or not written at all, and has not, with a prior to lose, made the target in this pass; over a target that is there nobody does |
| Succession.CreatorSurvivesExactly | internal/controller/promotion.go:163-165 | while the target stays, the cluster tracker beside a retired one names the retired one's creator if and only if the copy went into it |
| Succession.DeletedSuccessorLosesState | internal/controller/promotion.go:163-165 | a run in which the successor is deleted after the copy: the tracker is retired beside a blank one |
| Succession.EmptySuccessorLosesState | internal/controller/contributor_controller.go:376-390 | and one in which nobody deletes it: its own pass that finds nobody does |
| Creators.CreatorIsWriteOnce | internal/controller/tracker_controller.go:806-813 | whatever happens to the target, a tracker that has once named a creator never names another |
| Creators.MakerIsRecorded | internal/controller/tracker_controller.go:511-528 | from a missing target, nobody is on record until it is made, and then its maker or nobody, in both trackers, as long as it stays |
| Creators.CrashForgetsCreator | internal/controller/tracker_controller.go:515-528 | the maker is recorded if and only if the pass lives to its second write, and otherwise nobody ever is while the target stays |
| Creators.TwoCreatorsAfterDeletion | internal/controller/promotion.go:242-246 | a run in which the target is deleted in between, and two trackers name two creators |
| Creators.UnfencingBetweenFenceAndCreate | internal/controller/promotion.go:96-102 | with interleaved calls the unfencing between fence and creation makes two writers |
| Creators.ResumedCreationExactly | internal/controller/promotion.go:96-102 | in every sound state a resumed creation of the successor keeps a single writer if and only if there is one already or the namespaced tracker is missing or fenced |
| Creators.PassBetweenCreateAndCopy | internal/controller/promotion.go:257-264 | after a crash before the copy and a pass of the successor over any list, a contributor's priors survive if and only if the successor's record of it is missing, not flagged as captured, or the same |
| Sorting.SortStable | internal/controller/helpers.go:206-207 | exchanging neighbours in place gives the stable sort |
| Sorting.SortedIsStable | internal/controller/helpers.go:206-207 | elements none of which is less than another keep the order they came in |
| Ordering.SortContributors | internal/controller/helpers.go:206-223 | the array holds the same records, of any two the higher priority first, then a known creation before an unknown and the earlier first, then the UID that sorts no later; records that all this does not tell apart keep their order |
| Ordering.BeforeIsStrictOrder | internal/controller/helpers.go:207-222 | the comparison is a strict order, missing timestamps included |
| Ordering.ArrivalDoesNotMatter | internal/controller/helpers.go:200-205 | with distinct UIDs there is one order, whatever order the records arrive in |
| Text.LeqExactly | internal/controller/helpers.go:222 | one text sorts no later than another if and only if it is its prefix or smaller at the first character that differs |
| Listing.TextTellsApart | api/v1alpha1/interfaces.go:126-131 | the text of a reference tells contributors apart |
| Listing.ListContributors | internal/controller/tracker_controller.go:194-265 | every live contributor once, ranked by priority, creation and UID, each with a record that has its own reference, generation, priority and creation, and paths, priors, capture, hash, state and manager of the first record of the same contributor, or none |
| Listing.RecordTells | internal/controller/tracker_controller.go:331-356 | what a fresh record takes from the live object, what from the tracker's record of it, and that its manager is the object's own where none is recorded |
| Listing.ListIsUnique | internal/controller/tracker_controller.go:194-265 | the list is the same in whatever order the API server returns the contributors |
| Conflicts.DetectPathConflicts | internal/controller/tracker_controller.go:932-974 | the map built by the loops is the contested paths with their claimants in order |
| Conflicts.ConflictsAreExact | internal/controller/tracker_controller.go:927-974 | a path is reported exactly when two claims on it differ, and with all its claimants |
| Conflicts.ContestIsBetweenTwo | internal/controller/tracker_controller.go:927-931 | on printable paths that is when two contributions set one path to different values |
| Reconciler.IsSupersededOn | internal/controller/tracker_controller.go:980-1022 | the answer, and a holder of higher priority on a contested path |
| Arbitration.YieldsExactly | internal/controller/tracker_controller.go:976-1022 | a contributor yields exactly when its policy is Priority and it contends with a higher priority |
| Arbitration.UnyieldingAreEquals | internal/controller/tracker_controller.go:976-1022 | contributors with policy Priority left on one contested path have equal priority |
| Arbitration.HighestNeverYields | internal/controller/tracker_controller.go:976-1022 | a contributor of the highest priority is never superseded |
| Arbitration.LastClaimantWins | internal/controller/tracker_controller.go:412-548 | after a completed pass a path reads the value of the last contributor that claims it and does not yield |
| Arbitration.LastWithoutPriorityWins | internal/controller/tracker_controller.go:985-987 | so a last contributor of policy Fail or Force reads its value on every path it claims, contested or not |
| Precedence.ListedByPrecedence | internal/controller/helpers.go:200-223 | in a listed pass one contributor stands before another if and only if its own priority is higher, or the same and it was made earlier, or at once and its UID sorts first |
| Precedence.YieldsToPriority | internal/controller/tracker_controller.go:976-1022 | in a listed pass a contributor yields exactly if its policy is Priority and a contributor it contends with has the higher priority in its own spec |
| Precedence.ContendersAreEquals | internal/controller/tracker_controller.go:976-1022 | two of policy Priority that contend and do not yield have one priority in their specs |
| Precedence.HighestPriorityStands | internal/controller/tracker_controller.go:976-1022 | whoever has the highest priority in its spec of all that stay never yields |
| Precedence.LastInPrecedenceWins | internal/controller/tracker_controller.go:412-548 | a path reads the value of the claimant that does not yield and whom every other such claimant precedes by priority, creation and UID |
| Reconciler.ParsePaths | internal/render/render.go:234-244 | all stored paths, or the first error |
| Reconciler.SplitReleasing | internal/controller/tracker_controller.go:916-925 | those being deleted and those not, each in order |
| Reconciler.TrackerReconciler.ReleaseContributor | internal/controller/tracker_controller.go:594-627 | orphans are left alone, failures change nothing, otherwise the owned paths are reverted |
| Reconciler.TrackerReconciler.MaybeDeleteTarget | internal/controller/tracker_controller.go:689-726 | deletes exactly when the operator made the target and its recorded creator, leaving, asks for it |
| Reconciler.TrackerReconciler.ApplyOne | internal/controller/tracker_controller.go:412-548 | one contributor's turn: every branch, what it records and whether the pass goes on |
| Reconciler.TrackerReconciler.ReconcileContributions | internal/controller/tracker_controller.go:359-574 | the whole pass: target, status, records and how it ends |
| PassLaws.ReferenceCount | internal/controller/tracker_controller.go:394-574 | a completed pass stores one record per contributor that stays, with the count; a render error stores none; any other ending leaves the list |
| PassLaws.StoredInOrder | internal/controller/helpers.go:200-223 | a completed pass stores the list ranked by priority, creation and UID |
| PassLaws.DeletionIsSafe | internal/controller/tracker_controller.go:384-392 | the target disappears only in a pass that lists nobody who stays and a leaving creator asking for it |
| PassLaws.CreatorIsFirst | internal/controller/tracker_controller.go:511-528 | a creator is recorded once, only one whose apply in this pass made the target, and with the hash of its base; the fence, a known base hash and what was observed of the target stay |
| Reports.PassReports | internal/controller/tracker_controller.go:412-574 | a completed pass records of everyone who stays exactly whether it applied, gave way, was prevented or found no target it might make, and keeps the bookkeeping of those that did not apply; the phase follows from these states, and the target is there if and only if it was or somebody applied |
| Reports.StoppedPassReports | internal/controller/tracker_controller.go:400-406 | a pass that does not complete leaves the phase alone, but for one that a patch stops, which waits, with an empty list and the target as the releases left it |
| Reports.StuckPassStoresNothing | internal/controller/tracker_controller.go:375-382 | a pass stops at the releases, storing nothing, if and only if somebody who leaves and is no orphan has paths that do not parse or a fault that keeps it from being released |
| PassRuns.PassIsARun | internal/controller/tracker_controller.go:375-548 | a completed pass over a target is a run of releases and applies, every one taking effect, with no call for those that leave under policy Orphan; with these forgotten, its bookkeeping is the stored records |
| PassRuns.OrphansDoNothing | internal/controller/tracker_controller.go:602-605 | the releases leave the target as if those under policy Orphan were not among them, and these never stop a pass |
| Rounds.OrphanedFieldsStay | internal/controller/tracker_controller.go:602-605 | after a pass every path of a contributor that left under policy Orphan reads exactly what it did, whatever the others withdrew and wrote, and nothing is on record of it |
| Rounds.RoundsAreARun | internal/controller/tracker_controller.go:331-356 | so are any number of passes, the records being carried forward between them and those of orphans forgotten |
| Rounds.ContributorsReadTheirClaims | internal/controller/tracker_controller.go:359-574 | after any passes a contributor last applied reads its own values, also once it has left under policy Orphan |
| SecondPass.SecondPassChangesNothing | internal/apply/csa.go:266-268 | a second completed pass over unchanged contributors whose claims do not overlap leaves the target exactly as it is, and all paths, priors and captures on record |
| Rounds.TargetIsGivenBack | internal/controller/tracker_controller.go:359-627 | at every path of those that have been released through passes, and at every path apart from all claims, the target reads as before the first pass, whoever is still there or has left its fields behind |
| Rounds.TargetComesBack | internal/controller/tracker_controller.go:359-627 | and as a tree it is what it was, up to empty, null or missing containers on the way to claims, and exactly where no claim leaves a trace |
| LifecycleLaws.DeletionsAreSafe | internal/controller/tracker_controller.go:683-726 | over whole lives the target is deleted only when nobody stays and the contributor whose creation of it was the first that the tracker recorded is leaving and asks for it |
| LifecycleLaws.DeletionExactly | internal/controller/tracker_controller.go:683-726 | in every reachable state a pass calls for the deletion if and only if that is so |
| Finalizers.NobodyGoesHoldingFields | internal/controller/contributor_controller.go:158-201 | a contributor whose passes are safe for it, whatever the others do, never goes while its fields are on the target; that its finalizer is in place follows from the order of joining |
| Finalizers.HeldByLastCall | internal/controller/tracker_controller.go:359-574 | what an observer notes of a pass are the calls of the run it is, orphans apart, and a contributor's fields are its own on the target if and only if the last of its calls was an apply; an orphan's are nobody's |
| Finalizers.PassPinsExactly | internal/controller/tracker_controller.go:394-574 | a pass that leaves a contributor's fields on the target leaves it registered with a tracker that lists it if and only if the pass was safe for it: it had joined, and the pass completed or stopped with it on record and every patch rendered |
| Finalizers.LetGoExactly | internal/controller/contributor_controller.go:158-201 | deleted, a contributor is let go if and only if it is not so registered and listed |
| Finalizers.UnsettledPassOrphans | internal/controller/tracker_controller.go:400-406 | after the first pass that is not safe for it, a contributor deleted then goes with its fields in place |
| Orphans.RenderErrorOrphans | internal/controller/tracker_controller.go:400-406 | a run from the start in which somebody else's patch does not render, and a contributor goes with its fields in place |
| Orphans.LostStatusOrphans | internal/controller/tracker_controller.go:519-528 | one in which the status write of its first pass is lost |
| Orphans.UnpinnedWriterOrphans | internal/controller/contributor_controller.go:119-127 | and one in which a leftover tracker lists it before it has its finalizer |
| Orphans.AbandonedExactly | internal/controller/tracker_controller.go:630-650 | in every reachable state without contributors, no run without newcomers deletes the tracker if and only if its list on record is not empty |
| Orphans.AbandonedIsReachable | internal/controller/contributor_controller.go:119-156 | and a run from the start leaves such a tracker |

## Left out

- Server-side apply, `managedFields` and its conflicts: they live in the API server.
- Client, cache, watch, retry, requeue timing, logging and TLS plumbing: API writes are atomic changes of
  stored values, with a crash point after each in `Promotion`.
- Impersonation, authorization, webhooks, `scope.Validate` and tracker names: decision tables around foreign
  calls; a tracker is named by its one target, and failing impersonation is an input of a pass (`Fault`).
- Conditions, messages, transition times and the list of conflicts shown to users: presentation.
- Selector mode, and the label index: the list of live contributors is an input in any order.
- Hashing and JSON encoding are taken to be injective, so documents and values are compared as trees, and
  numbers are their canonical text; only `NumericKeys` tells a contribution's number from the live one.
- Rendering JSON6902 operations onto a skeleton: it is the work of a patch library. Only pointer decoding is
  modelled.
- Setting the target's identity on creation: a rendered contribution carries it already.
- Aliasing: nested maps and lists are values. `SetIn`, `SetInList`, `DeleteIn` and `DeleteInList` follow the
  recursion of the code and return the container as its holder sees it afterwards, also after a failure.
- Bytes: strings are sequences of characters, and path text is split at the same characters.
- The sorting algorithm of the Go library: `SortStable` is an insertion sort, of which only being stable and
  sorted is used.
- List positions in the undo theorems: positions shift when other elements go, so claims there use fields
  and key matches; `Positions` says what holds of positions.
- PositionsReleased: `RevertPositions` has the list after any order of positions; the closed form is for ascending ones,
  the order of their texts up to ten elements.
- Writes by others to the target during a run of applies, and API write conflicts: in a pass they are inputs
  that end it.
- The tracker's own deletion (`reconcileDelete`) appears in `Promotion` only, with the target it leaves as an
  input.
- The target's observed UID and resource version in a pass: carried as inputs in `Promotion`, unchanged
  in `TrackerPass`.
- `TrackerPass` decides on faults outside the tracker's logic once per contributor and pass, and treats a
  fault on a target that is missing and may not be created as the missing target.
- `Lifecycle` follows one tracker with no promotion in flight and no deletion of trackers from outside;
  `Promotion` takes what a pass writes as an input. The two are not combined.
- Contributor calls in `Lifecycle` and the tracker calls in `Promotion.Pass` are functions; the promotion
  calls and the pass over contributions are also methods.
- TargetIsGivenBack: asks that the passes complete over a target that exists throughout.
- TargetComesBack: asks that nobody is released under policy Orphan, which leaves fields on purpose.
- LeavesRebuild: asks for non-empty field names, no list directly inside a list, and lists keyed throughout
  or not at all, because path text and key matches address nothing else.
- NobodyGoesHoldingFields: fields count as given back by the release call, whatever it leaves behind (`ReleaseGivesBack`
  and `LostThenReleased` say what that is), and under policy Orphan as disowned.
- HeldByLastCall: asks that whoever leaves, orphans apart, has something on record, since releasing the others is no call.
- TornExactly: asks that no other claim covers the path or lies below it, as no leaf path does, and for a printable
  path that no other text is read back along it or below it.
- NumericKeysAppend: is about a contribution with this one claim, into a list that is there.
- TreeComesBack: asks for claims of the shape contributors render, where a key match ends a path. An element made
  on the way to a claim inside it would stay.
- AppliedReadsItsOwn: covers integer merge keys only where both printings agree, below a million.
- ReapplyChangesNothing: covers integer merge keys only where both printings agree, below a million.
- RoundsAreARun: asks that every status write goes through and that the target exists throughout; passes that
  create it, and passes whose status write is lost after a write to it, are in `Lifecycle` and `ApplyLoss` only. It asks that who
  left under policy Orphan makes no call any more.
- DeletionsAreSafe: goes by what was recorded. A creation whose record was lost is not counted, so a later
  contributor that makes the target again is the first.
- EnsureTarget: a target that is itself cluster-scoped has a cluster tracker only and is never promoted; that
  branch is not modelled.
- ListContributors: contributors in selector mode are left out, since which targets they match is decided
  elsewhere.
- MaybeDeleteTarget: the delete call always goes through.
- ApplyOne: a conflict reported by the applier comes from server-side apply only, and that branch is left out.
- ReconcileContributions: the writes of the target's observed UID and resource version are left out, and the
  delete call always goes through.
- AdoptKeepsAll: asks for distinct, non-empty UIDs, which every object in the API server has.
