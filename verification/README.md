# Verification of the shell's stateful protocols and codecs

A Dafny 4.11 project that models the parts of the desktop shell in which order,
sharing or failure matter, and proves what they keep. `dafny verify dfyconfig.toml`
checks the whole project.

| file | what it covers |
|---|---|
| `Options.dfy`, `Text.dfy` | optional values; white space of three languages, trimming, runs, fields, numerals |
| `MenuSpec.dfy` | menu ids, the menu tree as data, labels, item state |
| `MenuContract.dfy` | what the menu tree and the item states promise each other |
| `MenuTree.dfy` | the installed menu as a value: build, re-apply, first-match write, click |
| `MenuShell.dfy` | the menu model and every step that changes it; what whole runs keep |
| `MenuGaps.dfy` | for the application's own menu, exactly when the partial writes go wrong |
| `MenuHistory.dfy` | what the menu shows, computed from the list of events |
| `NativeMenu.dfy` | the in-place menu code over mutable items, proved against the steps |
| `MenuSync.dfy` | the frontend's request cache in front of that model |
| `MenuValidation.dfy` | the pending-validation ledger |
| `CommandLedger.dfy` | the performance command ledger under any interleaving |
| `UntitledDrawing.dfy` | `Untitled N` creation, alone and by many windows at once |
| `ExitCheckpoint.dfy` | closing and quitting with a checkpoint first |
| `Rendezvous.dfy` | "Close it and open here" |
| `RestoreTabs.dfy` | startup: restored tabs and launch paths |
| `Digest.dfy`, `Evidence.dfy` | the collection digest and the evidence validators |
| `Acceptance.dfy` | which documents the validators accept |
| `Changelog.dfy` | one version's section of the changelog |
| `ElapsedTime.dfy` | the elapsed-time column and the rows of `ps` |

## How it is modelled

The central question is whether the installed native menu always shows what a full
rebuild from the model would show. `MenuTree` gives a menu as a value and the four ways
the source writes it; `MenuShell` gives every step (sync, both halves of an enable, focus,
destroy, click) as a function on the model and the installed tree; `NativeMenu` has the
classes with the mutable flags and proves each method equal to its step. Whole runs are
then sequences of steps, with any number of windows. The platform's menu calls may fail:
a step carries the answers it will get, and an in-place walk a budget of calls.

The other protocols follow the same plan: what the source keeps in fields is a class whose
methods are proved equal to a step function, each `await` or lock section is one step, and
the results are about every run, by an inductive invariant. Each protocol also has a law that computes
its state or its log from the list of steps alone (`MenuHistory.RunRecords`,
`MenuValidation.LedgerFollowsTheSteps`, `CommandLedger.WriteDecides`,
`ExitCheckpoint.LogSaysHowItSettled`, `RestoreTabs.AtRestEachPlanIsDone`,
`UntitledDrawing.AnswersFollowTheSteps`). Calls into the window registry, the file system
or the document manager are parameters: a target window, an answer.

The codecs are functions over strings, with loops where the source has loops, and each has
an independent partner: a grammar, a rendering, a positional description.

## Results that differ from what the code intends

Each of these is a lemma with a witness or an exact condition; the model keeps the code.

- An enable by the target window makes it the shown window but writes one item. The menu is
  right afterwards exactly when that window's stored report looks like the one shown
  (`MenuGaps.TargetEnableAgreesIff`, `MenuGaps.EnableCanShowTheWrongWindow`).
- An enable or a sync by the shown window while it is not the target is stored and never
  shown (`MenuGaps.OtherEnableAgreesIff`, `MenuGaps.UnshownSyncAgreesIff`).
- `set_native_menu_enabled` releases the lock before its write. A late write is right exactly
  when it says what the model says by then (`MenuShell.WriteAgreesIff`).
- A label change whose window-menu registration fails rolls the labels back and leaves the
  new menu installed; a sync is a transaction for the model, and for the tree only when it
  fails earlier (`NativeMenu.NativeMenuStore.Sync`, `MenuGaps.FailedRelabelKeepsShapeIff`).
  No later focus, click or destroy repairs it (`MenuGaps.FocusDoesNotRepair`,
  `MenuGaps.LostRegistrationLasts`); the same request sent again does (`MenuGaps.RetryRepairs`).
- What a full refresh repairs: after any run at all, one that succeeds leaves exactly the rebuilt
  menu if and only if the labels installed last read like the model's, on macOS if and only if
  it brings new labels or those installed last are the model's (`MenuShell.RunThenRefreshAgreesIff`,
  `MenuGaps.MacRefreshAgreesIff`). So all the gaps above but the lost registration heal with it.
- The request cache is per window and labels are global, so a skipped call can leave another
  window's labels in place (`MenuSync.SkipCanKeepOtherLabels`,
  `MenuSync.SkippedCallIsRedundantIff`). For the window state the cache is right with any
  number of outstanding requests handled in sending order. In any order, what it remembers at
  rest is stored if and only if the window's last successful handling carried the same state
  (`MenuSync.CacheAgreesIff`). The witness out of order is hypothetical: the command is
  synchronous, so requests are handled as they arrive (`MenuSync.OutOfOrderBreaksTheCache`).
- A routed observation can precede its native entry. A run's log is in order if and only if no
  id is routed between its recording and its own line, and an acknowledgement makes disorder
  possible if and only if it is accepted there (`MenuValidation.RoutesFollowTheirEntryIff`,
  `MenuValidation.AcknowledgementMisordersIff`); answers to payloads never are.
- A path that contains a NUL, 64 hex digits and a line feed reads as two entries of the digest
  text (`Digest.BoundaryPathsCollide`). Two lists have one text exactly when they read as the
  same lines (`Digest.SameTextIffSameLines`).
- `destroying` stays set when `destroy` fails. A native close goes through without a checkpoint
  of its own if and only if some checkpoint had succeeded before it came, so from then on every
  one does (`ExitCheckpoint.NativeLetThroughIff`, `ExitCheckpoint.FailedDestroyLetsClosesThrough`,
  `ExitCheckpoint.ACloseWithoutCheckpoint`), and requests of peers get no answer
  (`ExitCheckpoint.PeerAnsweredIff`, `ExitCheckpoint.FailedDestroySilencesPeers`).
- A quit that is cancelled on a window's account before its checkpoint fails is explained
  twice, and that is the only such case (`QuitCheckpoint.ExplainedTwiceIff`).
- The "empty section" error of the release-notes script cannot happen
  (`Changelog.SectionIsNotEmpty`).

## Model

| member | source | states |
|---|---|---|
| MenuSpec.Validate | src-tauri/src/native_menu_spec.rs:108-128 | accepts exactly the required ids with acceptable texts, unchanged; a refusal names a real fault, and the first one in the order of the checks |
| MenuSpec.ValidateFor | src-tauri/src/native_menu_spec.rs:108-128 | the same for any list of required ids |
| MenuContract.EnabledExactly | src-tauri/src/native_menu_spec.rs:234-272 | which items need a document, an editable one, a window or the history; all others are always enabled |
| MenuContract.CheckedExactly | src-tauri/src/native_menu_spec.rs:257-270 | exactly the current language, the current appearance and the preferences that are on are checked |
| MenuContract.EveryOwnedItemOnce | src-tauri/src/native_menu_spec.rs:377-491 | on both layouts the menu has every owned item exactly once and no other item, each of the kind its state needs |
| MenuContract.MarksAreDerived | src-tauri/src/native_menu_spec.rs:248-271 | an item's state carries a check mark exactly when the item is a check item |
| MenuContract.AppMenuLabelled | src-tauri/src/native_menu_spec.rs:377-491 | on both layouts every item, system item and submenu carries its own label, at every depth, as a table gives it |
| MenuTree.UpdateInPlaceIsRebuild | src-tauri/src/native_menu.rs:319-338 | re-applying a model to any tree that differs from a build only in governed flags gives exactly the build from that model, for every menu tree and any two models with the same labels |
| MenuTree.ApplyOfBuild | src-tauri/src/native_menu.rs:230-338 | re-applying another model's state to a fresh build equals building from that model |
| MenuTree.ApplySeesOnlyTheFrame | src-tauri/src/native_menu.rs:319-338 | re-applying does not look at the governed flags it overwrites |
| MenuTree.FinishedWalkAppliesAll | src-tauri/src/native_menu.rs:319-338 | a walk whose menu calls all succeed re-applies every item |
| MenuTree.WalkKeepsFrame | src-tauri/src/native_menu.rs:319-338 | a walk cut short at any menu call changes governed flags only |
| MenuTree.FrameOfBuild | src-tauri/src/native_menu.rs:230-292 | builds from models with the same labels differ in governed flags only |
| MenuTree.SingleWriteIsRebuild | src-tauri/src/native_menu.rs:485-505 | where the Version History id occurs once, as a plain item, the first-match write equals a rebuild with only that flag changed |
| MenuTree.AbsentIdIsNotFound | src-tauri/src/native_menu.rs:485-505 | where the id does not occur the write reports false and changes nothing |
| MenuTree.WriteKeepsFrame | src-tauri/src/native_menu.rs:485-505 | the first-match write changes governed flags only, whatever it finds |
| MenuTree.ToggleKeepsFrame | src-tauri/src/native_menu.rs:525-530 | the platform's toggle of a clicked check item changes a governed flag only, and a toggled item is one that is forwarded and so repaired |
| MenuTree.EqualBuildsIff | src-tauri/src/native_menu.rs:230-292 | two builds are equal exactly when every item of the tree has equal flags in both |
| MenuTree.EqualFramesShareTexts | src-tauri/src/native_menu.rs:230-292 | builds that agree up to flags agree on every label the tree uses |
| MenuTree.FramesAgreeIff | src-tauri/src/native_menu.rs:230-292 | builds with two label sets agree up to flags if and only if every text the tree renders is the same |
| MenuTree.RelabelledBuildsIff | src-tauri/src/native_menu.rs:230-292 | builds that differ in labels only are equal if and only if those texts are |
| MenuTree.UpdateInPlaceKeepsTexts | src-tauri/src/native_menu.rs:319-338 | re-applying state to a tree built with any labels gives the build of that state with those labels |
| MenuShell.GuardedRunAgrees | src-tauri/src/native_menu.rs:353-530 | in every run of sync, enable, focus, destroy and click steps whose callers respect the guards and whose menu calls succeed, the installed tree is exactly a full build from the model |
| MenuShell.GuardedStepAgrees | src-tauri/src/native_menu.rs:353-530 | the same for one step, with the guard each kind of step needs |
| MenuShell.EveryRunKeepsShape | src-tauri/src/native_menu.rs:204-530 | in every run, with raced enables, failing menu calls and lost registrations, the tree is, up to governed flags, a build with the labels installed last |
| MenuShell.StepKeepsShape | src-tauri/src/native_menu.rs:204-530 | the same for one step |
| MenuShell.RunInShapeIff | src-tauri/src/native_menu.rs:204-530 | after any run the tree differs from a rebuild in governed flags only if and only if those labels read like the model's |
| MenuShell.RefreshingStepHeals | src-tauri/src/native_menu.rs:340-404 | a full refresh that succeeds turns a tree that is wrong in governed flags only into exactly the rebuilt menu |
| MenuShell.RefreshingStepRestores | src-tauri/src/native_menu.rs:340-404 | from any tree, a refreshing step that succeeds leaves the build from the model in the labels installed last |
| MenuShell.RefreshingStepAgreesIff | src-tauri/src/native_menu.rs:340-404 | it leaves exactly the rebuilt menu if and only if those labels read like the model's |
| MenuShell.RelabellingHeals | src-tauri/src/native_menu.rs:362-379 | a sync that brings new labels and succeeds leaves exactly the rebuilt menu, from any state |
| MenuShell.RunThenRefreshAgreesIff | src-tauri/src/native_menu.rs:204-530 | after any run at all, a refreshing step that succeeds leaves exactly the rebuilt menu if and only if the labels installed last read like the model's |
| MenuShell.RunThenRefreshAgrees | src-tauri/src/native_menu.rs:340-530 | so after every run without a lost registration it does |
| MenuShell.WriteAgreesIff | src-tauri/src/native_menu.rs:428-447 | a late single write leaves an agreeing menu right if and only if it says what the model says |
| MenuShell.FailedSyncIsATransaction | src-tauri/src/native_menu.rs:362-397 | the specification side of the transaction that `NativeMenu.NativeMenuStore.Sync` is proved to be |
| MenuGaps.AppMenuIsWellFormed | src-tauri/src/native_menu_spec.rs:377-491 | the application's menu has Version History once, as a plain item, and every check item is a forwarded command, on both layouts |
| MenuGaps.AppMenuTellsApart | src-tauri/src/native_menu_spec.rs:234-272 | the application's menu shows two snapshots alike if and only if they look alike |
| MenuGaps.AppMenuSays | src-tauri/src/native_menu.rs:230-292 | a build of the application's menu has every owned item, and each says what the snapshot asks for: its own label, enabled and checked by the rules above; no other item is there |
| MenuGaps.RenderedAreRequired | src-tauri/src/native_menu_spec.rs:377-491 | the labels rendered are exactly the required ones on macOS, and among them on the other layout |
| MenuGaps.UnshownSyncAgreesIff | src-tauri/src/native_menu.rs:369-380 | the menu stays right after a sync by a window that is not the target if and only if that window is not shown or its report looks the same |
| MenuGaps.TargetEnableAgreesIff | src-tauri/src/native_menu.rs:435-441 | the menu stays right after an enable by the target if and only if the target's stored report looks like the one shown |
| MenuGaps.OtherEnableAgreesIff | src-tauri/src/native_menu.rs:430-439 | the menu stays right after an enable by another window if and only if nothing shown changed |
| MenuGaps.EnableCanShowTheWrongWindow | src-tauri/src/native_menu.rs:435-441 | a concrete enable after which the menu shows another window's Save item |
| MenuGaps.MacMenuUsesEveryLabel | src-tauri/src/native_menu_spec.rs:377-491 | the macOS menu renders every required label |
| MenuGaps.FailedRelabelKeepsShapeIff | src-tauri/src/native_menu.rs:204-216 | a failed label change keeps menu and model together if and only if it failed before the new menu was installed |
| MenuGaps.MacTextsIff | src-tauri/src/native_menu_spec.rs:377-491 | the macOS menu reads the same in two valid label sets if and only if they are equal |
| MenuGaps.MacRunInShapeIff | src-tauri/src/native_menu.rs:204-530 | after any run on macOS, menu and model are together if and only if the labels installed last are the model's |
| MenuGaps.MacRefreshAgreesIff | src-tauri/src/native_menu.rs:204-530 | after any run on macOS, a refreshing step that succeeds leaves exactly the rebuilt menu if and only if it brings new labels or the labels installed last are the model's |
| MenuGaps.LostRegistrationLasts | src-tauri/src/native_menu.rs:204-216 | after a lost registration, and whatever follows, the menu never agrees again until new labels are installed |
| MenuGaps.FocusDoesNotRepair | src-tauri/src/native_menu.rs:452-464 | the failing input: a focus after a lost registration leaves the menu wrong |
| MenuGaps.RetryRepairs | src-tauri/src/native_menu.rs:362-376 | the same request sent again, with success, repairs it |
| MenuHistory.FocusModel | src-tauri/src/native_menu.rs:452-464 | a focus makes the focused window the shown one and changes nothing else of the model, from any state |
| MenuHistory.DestroyModel | src-tauri/src/native_menu.rs:469-483 | a destroy drops that window's report, keeps every other, and moves on exactly when that window or none was shown |
| MenuHistory.RunRecords | src-tauri/src/native_menu.rs:353-530 | in every run, with any failures and any interleaving, labels, reports and shown window are the last ones in the list of events that were not rejected and not failed syncs |
| MenuHistory.GuardedRunTakes | src-tauri/src/native_menu.rs:362-421 | with a menu installed and no failing call, the events that do not count are those with invalid labels or another command, whatever the state |
| MenuHistory.GuardedRunShowsTheLastReport | src-tauri/src/native_menu.rs:353-530 | in every guarded run from the bootstrap the installed menu is the build of the last report of the window shown last, in the labels synced last, computed from the events |
| MenuHistory.GuardedRunSays | src-tauri/src/native_menu.rs:230-530 | item by item for the application's menu: label, enabled and checked of every installed item follow from the events by the rules of the items |
| MenuHistory.RefreshShowsTheLastReport | src-tauri/src/native_menu.rs:340-530 | after any other run without a lost registration, one refreshing step that succeeds shows it too |
| NativeMenu.BuildEntry | src-tauri/src/native_menu.rs:237-290 | allocates fresh items that show exactly the entry's build |
| NativeMenu.BuildEntries | src-tauri/src/native_menu.rs:230-292 | allocates a fresh tree without sharing that shows exactly the build |
| NativeMenu.ApplyItem | src-tauri/src/native_menu.rs:323-335 | one item re-applied in place, within a budget of menu calls |
| NativeMenu.ApplyMenuState | src-tauri/src/native_menu.rs:319-338 | the recursive in-place walk leaves exactly the walk's result, also when a menu call fails midway |
| NativeMenu.SetMenuItemEnabled | src-tauri/src/native_menu.rs:485-505 | the recursive first-match write in place leaves exactly the first-match result |
| NativeMenu.ToggleAt | src-tauri/src/native_menu.rs:525-530 | the platform's toggle of the item at a path, in place |
| NativeMenu.NativeMenuStore.Install | src-tauri/src/native_menu.rs:204-221 | builds and installs a menu; a failed registration is reported with the new menu installed |
| NativeMenu.NativeMenuStore.ApplyInstalled | src-tauri/src/native_menu.rs:399-404 | re-applies the model to the installed menu, if there is one |
| NativeMenu.NativeMenuStore.Sync | src-tauri/src/native_menu.rs:353-397 | one sync equals the sync step, and is a transaction: one that is rejected or fails leaves labels, window map and active window as they were, and the installed menu too when building or installing it failed |
| NativeMenu.NativeMenuStore.RollBack | src-tauri/src/native_menu.rs:381-391 | restores labels, the caller's entry or its absence, and the active window |
| NativeMenu.NativeMenuStore.SetEnabled | src-tauri/src/native_menu.rs:410-449 | one uninterrupted enable equals the enable step: rejected exactly for another command or without a menu, and otherwise the flag is stored, the state kept, and the caller shown if it is the target |
| NativeMenu.NativeMenuStore.ShowWindowState | src-tauri/src/native_menu.rs:452-464 | equals the focus step: the window becomes the shown one, labels and reports stay |
| NativeMenu.NativeMenuStore.ForgetWindowState | src-tauri/src/native_menu.rs:469-483 | equals the destroy step: only that window's report goes, and the next window is shown exactly when it or none was |
| NativeMenu.NativeMenuStore.Click | src-tauri/src/native_menu.rs:510-530 | a click and the repair that follows equal the click step |
| MenuSync.NativeMenuSync.Send | src/app/nativeMenuSync.ts:81-89 | a request goes out exactly when it is not the remembered one, and is remembered before it is answered |
| MenuSync.NativeMenuSync.Settle | src/app/nativeMenuSync.ts:88-94 | a failure forgets whatever is remembered by then |
| MenuSync.CallGoesOutIff | src/app/nativeMenuSync.ts:75-96 | in every run, with requests handled in any order, a call goes out if and only if it is not the request the window called for last or a refusal came back since; a skipped one changes nothing |
| MenuSync.CacheAgreesWithBackend | src/app/nativeMenuSync.ts:75-96 | in every run with any number of windows and outstanding requests, handled in sending order, a live window at rest whose cache remembers a request has that request's state stored in the backend |
| MenuSync.SkippedCallChangesNothing | src/app/nativeMenuSync.ts:85-87 | a call the cache skips at rest would have left every window's stored state as it is |
| MenuSync.SkippedCallIsRedundantIff | src/app/nativeMenuSync.ts:85-87 | it would have left the whole backend model as it is if and only if its labels are the ones shown and it would not move the menu to its window |
| MenuSync.SkipCanKeepOtherLabels | src/app/nativeMenuSync.ts:85-87 | a run after which a skipped call leaves another window's labels in the menu |
| MenuSync.CacheAgreesIff | src/app/nativeMenuSync.ts:75-96 | in every run, with requests handled in any order, what the cache remembers at rest is stored if and only if the window's last successful handling carried the same state |
| MenuSync.OutOfOrderBreaksTheCache | src/app/nativeMenuSync.ts:75-96 | a hypothetical order: two outstanding requests handled newest first would leave the older one stored |
| MenuValidation.ValidationLedger.Handle | src-tauri/src/native_menu.rs:532-557 | one uninterrupted menu event equals its four steps |
| MenuValidation.ValidationLedger.Consume | src-tauri/src/native_menu.rs:570-597 | one uninterrupted acknowledgement is routed exactly when its id is pending under its command |
| MenuValidation.HandledIsARun | src-tauri/src/native_menu.rs:532-551 | those four steps are a run of the protocol |
| MenuValidation.LedgerFollowsTheSteps | src-tauri/src/native_menu.rs:532-628 | in every run an id is recorded, logged, sent, dropped and routed exactly if the step that does so was taken for it, and its entry carries the command drawn under that id |
| MenuValidation.RoutesAreGenuineAndUnique | src-tauri/src/native_menu.rs:559-628 | in every run a routed observation carries the command its id was recorded with and is the only one for that id |
| MenuValidation.RoutesFollowTheirEntry | src-tauri/src/native_menu.rs:532-597 | when no acknowledgement names an id between its recording and its log line, each routed observation is preceded by the native entry with the same id and command |
| MenuValidation.RoutesFollowTheirEntryIff | src-tauri/src/native_menu.rs:532-597 | in every run all routed observations are preceded by their native entries if and only if none is logged between the recording of its id and that id's own line |
| MenuValidation.CanMisorderIff | src-tauri/src/native_menu.rs:532-597 | without hearing more, the handlers can still reach a log out of order if and only if it is so already or an id was consumed before its line |
| MenuValidation.AcknowledgementMisordersIff | src-tauri/src/native_menu.rs:570-597 | an acknowledgement makes a disorder possible if and only if it is accepted while its id is recorded and not logged |
| MenuValidation.AGuessCanRouteFirst | src-tauri/src/native_menu.rs:532-535 | in any run, an id that is recorded and not yet logged can be routed without its native entry before it |
| MenuValidation.AGuessIsPossible | src-tauri/src/native_menu.rs:600-610 | such a run exists |
| MenuValidation.AnswersToPayloadsAreTimely | src/app/nativeMenu.ts:150-170 | from the moment a payload is sent to a webview, however the run goes on, an acknowledgement of its id is not too early |
| MenuValidation.RejectedExactly | src-tauri/src/native_menu.rs:619-634 | an acknowledgement changes the ledger if and only if its id is pending under its command; discarded, unknown and mismatched ones change nothing |
| MenuValidation.DroppedIsNeverRouted | src-tauri/src/native_menu.rs:612-617 | an id dropped before it was consumed is never routed, whatever happens later |
| MenuValidation.OneFateEach | src-tauri/src/native_menu.rs:600-634 | in every run each recorded id is exactly one of pending, consumed, routed or dropped unanswered |
| CommandLedger.CommandLedger.Register | src-tauri/src/e2e_performance.rs:260-267 | hands a command out unless its id was seen before |
| CommandLedger.CommandLedger.Take | src-tauri/src/e2e_performance.rs:289-297 | takes the issued command, or reports that someone else has |
| CommandLedger.CommandLedger.Look | src-tauri/src/e2e_performance.rs:275-287 | what a report will be checked against |
| CommandLedger.CommandLedger.Restore | src-tauri/src/e2e_performance.rs:299-305 | puts the command back |
| CommandLedger.ProcessedIdsArePartitioned | src-tauri/src/e2e_performance.rs:252-307 | under every interleaving the processed ids are exactly partitioned into issued, held by one in-flight publisher each, and published once |
| CommandLedger.AnswersMatchTheCommandHandedOut | src-tauri/src/e2e_performance.rs:260-306 | each id is handed out at most once and answered at most once, by a report validated against the command handed out |
| CommandLedger.FailedPublicationRestores | src-tauri/src/e2e_performance.rs:298-305 | a failed publication restores the command handed out and overwrites nothing, also when the entry was taken and put back between the two lock sections |
| CommandLedger.NothingIsLostAtRest | src-tauri/src/e2e_performance.rs:252-307 | with nobody in flight, a command handed out is unanswered if and only if it is still issued, as handed out |
| CommandLedger.PublishedTimedReportsHaveFrames | src-tauri/src/e2e_performance.rs:482-512 | in every run a published answer to a timed command saw a frame interval that took time |
| CommandLedger.TimedReportHasFrames | src-tauri/src/e2e_performance.rs:468-512 | a valid report for a valid timed command has a positive frame interval |
| CommandLedger.WriteDecides | src-tauri/src/e2e_performance.rs:298-306 | in every run a successful write publishes exactly the report in hand and restores nothing; a failed one publishes nothing, and the caller's next step puts the command back |
| CommandLedger.OneAnswerPerWrite | src-tauri/src/e2e_performance.rs:252-307 | in every run there are as many published answers as successful writes |
| CommandLedger.NothingIsInvented | src-tauri/src/e2e_performance.rs:252-307 | what was handed out had been read from the command file, and what was published had been submitted |
| CommandLedger.PollHandsOutIff | src-tauri/src/e2e_performance.rs:252-268 | in any run, a poll by itself hands out what it read if and only if that is valid and its id new |
| CommandLedger.AnswerPublishedIff | src-tauri/src/e2e_performance.rs:270-307 | in any run, a report by itself is published, and its command taken, if and only if it is valid for an issued command |
| CommandLedger.ValidReportIff | src-tauri/src/e2e_performance.rs:482-512 | which reports are valid for a command, over the frame intervals as numbers |
| CommandLedger.PublishedAnswersProve | src-tauri/src/e2e_performance.rs:270-307 | in every run a published answer proves the window that the command handed out asked for |
| UntitledDrawing.NamesDiffer | src/app/newDrawing.ts:79-80 | different attempts try different names |
| UntitledDrawing.NameIs | src/app/newDrawing.ts:79-80 | the first name is the base; a later one is the base, one space and the numeral of the attempt without leading zeros |
| UntitledDrawing.Folder.Create | src/app/newDrawing.ts:82-88 | the create is atomic and never overwrites |
| UntitledDrawing.CreateUntitled | src/app/newDrawing.ts:72-98 | alone, the loop takes the least free number, reports a conflict only when all its names are taken, and passes on other errors with nothing created |
| UntitledDrawing.FinishedNamesAreDistinct | src/app/newDrawing.ts:72-98 | in every interleaving of any number of loops the names are pairwise distinct, and none was there before |
| UntitledDrawing.AnswersFollowTheSteps | src/app/newDrawing.ts:78-96 | in every interleaving a loop's number is the number of attempts it made, a conflict comes after the last one, and it ends with another error exactly if an attempt failed so |
| UntitledDrawing.ConflictOnlyBeyondTheBound | src/app/newDrawing.ts:89-95 | a conflict means that existing entries, entries of others and loops total more than 1000 |
| UntitledDrawing.ConflictJustBeyondTheBound | src/app/newDrawing.ts:89-95 | that bound is tight |
| UntitledDrawing.TakenIsGapless | src/app/newDrawing.ts:78-80 | in every run the numbers taken have no gap but names that were there before or that others added |
| UntitledDrawing.InterleavingsEndInOneFolder | src/app/newDrawing.ts:72-98 | the interleaving does not matter: equally many successful loops, with the same names added by others at whatever moments, leave the same folder |
| ExitCheckpoint.ExitGuard.OnCloseRequested | src/app/exitCheckpoint.ts:62-68 | a native close is prevented exactly while nothing is being destroyed |
| ExitCheckpoint.ExitGuard.OnPeerRequest | src/app/exitCheckpoint.ts:69-71 | a peer's request starts an attempt, or none |
| ExitCheckpoint.ExitGuard.AfterCheckpoint | src/app/exitCheckpoint.ts:51-59 | a successful checkpoint sets the flag and calls destroy; a failed one does neither and ends the attempt |
| ExitCheckpoint.ExitGuard.AfterDestroy | src/app/exitCheckpoint.ts:54-59 | destroy ends the attempt or fails it; the flag stays |
| ExitCheckpoint.ExitGuard.AfterFailedClose | src/app/exitCheckpoint.ts:70-77 | a failed close of a peer is reported |
| ExitCheckpoint.EveryAttemptKeepsTheProtocol | src/app/exitCheckpoint.ts:49-79 | under every interleaving each attempt calls destroy at most once, right after its own successful checkpoint, and only a peer's attempt is reported failed, at most once, after its own failure |
| ExitCheckpoint.LogSaysHowItSettled | src/app/exitCheckpoint.ts:49-79 | in every run a checkpoint is logged as successful, and destroy is called, exactly if it settled so; failures, destroyed windows and reports are logged exactly if they happened |
| ExitCheckpoint.FlagSaysCheckpointed | src/app/exitCheckpoint.ts:50-59 | in every run the flag is set exactly if some checkpoint settled well |
| ExitCheckpoint.AttemptsBegan | src/app/exitCheckpoint.ts:62-71 | the attempts are the ones that began, of the kinds they began as |
| ExitCheckpoint.UnpreventedOnlyAfterACheckpoint | src/app/exitCheckpoint.ts:62-65 | an unprevented native close comes after some successful checkpoint |
| ExitCheckpoint.NativeLetThroughIff | src/app/exitCheckpoint.ts:54-68 | over all runs, a native close goes through, without a checkpoint of its own whatever comes later, if and only if some checkpoint had succeeded before it came |
| ExitCheckpoint.FailedDestroyLetsClosesThrough | src/app/exitCheckpoint.ts:50-65 | after any destroy that failed, the next native close goes through |
| ExitCheckpoint.ACloseWithoutCheckpoint | src/app/exitCheckpoint.ts:50-65 | a run in which nothing was destroyed and a later close goes through unchecked |
| ExitCheckpoint.PeerAnsweredIff | src/app/exitCheckpoint.ts:49-79 | once all is settled a peer's request was answered (window destroyed by it, or failure reported) if and only if no checkpoint had succeeded before it came |
| ExitCheckpoint.FailedDestroySilencesPeers | src/app/exitCheckpoint.ts:50-59 | after any destroy settles, failed ones included, every later request of a peer is ignored |
| ExitCheckpoint.OverlappingAttemptsBothDestroy | src/app/exitCheckpoint.ts:49-60 | two overlapping attempts both call destroy when both checkpoints succeed |
| QuitCheckpoint.QuitGuard.AfterCheckpoint | src/app/exitCheckpoint.ts:130-147 | a settled checkpoint is answered, and a failure explained and remembered |
| QuitCheckpoint.QuitGuard.OnCancelled | src/app/exitCheckpoint.ts:149-156 | a cancelled quit is explained when it names this window and was not explained yet |
| QuitCheckpoint.AnsweredAsSettled | src/app/exitCheckpoint.ts:130-147 | each settled request is answered once, with the outcome it settled with, and nothing else is answered |
| QuitCheckpoint.OthersDoNotMatter | src/app/exitCheckpoint.ts:116-157 | requests do not disturb each other |
| QuitCheckpoint.ExplainedIff | src/app/exitCheckpoint.ts:128-157 | a request is explained if and only if its checkpoint failed or its quit was cancelled on this window's account |
| QuitCheckpoint.ExplainedTwiceIff | src/app/exitCheckpoint.ts:128-157 | a request that settles and is cancelled at most once is explained twice if and only if it is cancelled on this window's account first and fails then |
| Rendezvous.Call.Hear | src/app/nestedWorkspace.ts:78-82 | an event resolves the waiting call or is kept under its id |
| Rendezvous.Call.Return | src/app/nestedWorkspace.ts:84-92 | the returned id takes an early result or waits |
| Rendezvous.Call.Reject | src/app/nestedWorkspace.ts:83-95 | a failing call ends the wait with that failure |
| Rendezvous.AnswerIs | src/app/nestedWorkspace.ts:73-92 | in every run the answer is the last outcome for the id before the call returned, else the first one after, else none |
| Rendezvous.NoLostOrCrossedWakeUp | src/app/nestedWorkspace.ts:72-92 | the call completes if and only if an event for its id came, and with an outcome reported for it |
| Rendezvous.OtherIdsNeverMatter | src/app/nestedWorkspace.ts:78-82 | events for other ids change nothing, wherever they fall |
| Rendezvous.TheOrderIsImmaterial | src/app/nestedWorkspace.ts:72-92 | when all reports for the id agree it does not matter when the call returns |
| RestoreTabs.RestoreTabs | src/app/openFileHandler.ts:109-132 | skipped tabs beyond the backend's own plus opened tabs are all tabs; tabs open in order and the active one again, last, exactly when it was restored |
| RestoreTabs.Drain | src/app/openFileHandler.ts:90-98 | a drain makes exactly its plan's calls and reports the skipped tabs exactly when there are some |
| RestoreTabs.Startup.DrainPending | src/app/openFileHandler.ts:79-102 | a registration drains the handshake it loads exactly when no registration did before |
| RestoreTabs.OpensAtMost | src/app/openFileHandler.ts:115-122 | nothing is skipped beyond the backend's own exactly when every tab opened |
| RestoreTabs.OpensCounts | src/app/openFileHandler.ts:115-122 | the count is the number of places at which an open ended with a tab here |
| RestoreTabs.PlanIs | src/app/openFileHandler.ts:90-132 | a plan is the tabs, then the active tab exactly if it opened here, then the launch paths |
| RestoreTabs.LoadedIsDrained | src/app/openFileHandler.ts:79-88 | a handshake is drained exactly if some registration loaded it |
| RestoreTabs.DrainHasItsAnswers | src/app/openFileHandler.ts:109-122 | a drain goes by the answers that the run gave it |
| RestoreTabs.EachHandshakeIsDrainedOnce | src/app/openFileHandler.ts:77-88 | however registrations overlap, a loaded handshake is drained by exactly one of them, and its calls are the beginning of one plan |
| RestoreTabs.AtRestEachPlanIsDone | src/app/openFileHandler.ts:77-132 | with nothing left to do, every handshake that some registration loaded had exactly these calls, once: its tabs, the active tab exactly if it opened here, its launch paths |
| Digest.CleanTextIsInjective | e2e/visual/003Evidence.ts:442-450 | on paths without an embedded line boundary and 64-digit hashes the text determines the list |
| Digest.SameTextIffSameLines | e2e/visual/003Evidence.ts:445-448 | any two lists have one text if and only if, cut at their boundaries, they are the same lines |
| Digest.AnyStableSortIsSorted | e2e/visual/003Evidence.ts:445-446 | whatever stable sort is used, the sorted list is the modelled one |
| Digest.PreimageIsCanonical | e2e/visual/003Evidence.ts:442-450 | for distinct such paths two collections have one text if and only if they have the same entries, in any order |
| Digest.DigestIdentifiesEntries | e2e/visual/003Evidence.ts:442-450 | the same for the digest, under a hash that separates the two texts |
| Digest.OrderImmaterialIff | e2e/visual/003Evidence.ts:445-446 | the list order is immaterial if and only if no path has two hashes |
| Digest.BoundaryPathsCollide | e2e/visual/003Evidence.ts:447-448 | every path with an embedded boundary whose halves stand in order shares its text with a two-entry collection |
| Evidence.UnmixedIff | e2e/visual/003Evidence.ts:249-264 | the role check passes if and only if no object at any depth has a prohibited key |
| Evidence.StaysInsideIff | e2e/visual/003Evidence.ts:239-247 | a path is accepted if and only if it is not blank, not rooted, and no parent step stands between separators or ends |
| Evidence.NamesShellIff | e2e/visual/003Evidence.ts:408-410 | a selector is refused as shell UI if and only if it contains one of the words, `back` only standing alone, in any letter case and with the two foreign letters that fold to ASCII |
| Evidence.ReadAgain | e2e/visual/003Evidence.ts:266-328 | reading what was read changes nothing, for every schema with distinct keys |
| Evidence.OnlyNamedKeysMatter | e2e/visual/003Evidence.ts:266-328 | what is built depends on the named keys only |
| Evidence.OutputIsUnmixed | e2e/visual/003Evidence.ts:266-328 | what is built has no key of another role, whatever the input had |
| Evidence.AcceptedIsUnmixed | e2e/visual/003Evidence.ts:330-550 | nothing the three validators accept has a prohibited key at any depth |
| Evidence.EnvironmentIsAProjection | e2e/visual/003Evidence.ts:330-403 | what the environment validator builds is accepted again, unchanged |
| Evidence.MaskIsAProjection | e2e/visual/003Evidence.ts:405-440 | the same for masks |
| Evidence.ReportIsAProjection | e2e/visual/003Evidence.ts:452-550 | the same for collector reports, with their route and digest checks |
| Evidence.BrowserEvidenceKeepsItsProof | e2e/visual/003Evidence.ts:343-350 | accepted browser evidence carries loaded fonts and the font policy into the output |
| Evidence.AcceptedArtifactsAreHashed | e2e/visual/003Evidence.ts:504-520 | accepted artifacts have well-formed hashes and paths inside the collection |
| Evidence.CollectionDigestBindsArtifacts | e2e/visual/003Evidence.ts:521-530 | two accepted reports have one collection digest if and only if they list the same artifacts, for distinct clean paths and a hash that separates the two texts |
| Acceptance.MaskAcceptedIff | e2e/visual/003Evidence.ts:405-440 | a mask document is accepted if and only if it has no prohibited key at any depth and meets the demands: among them that every mask has a selector that mentions none of the shell's words, a checked perimeter and an approval |
| Acceptance.EnvironmentAcceptedIff | e2e/visual/003Evidence.ts:296-403 | an environment is accepted if and only if it has no prohibited key and meets the demands of its fields, with loaded fonts and the font policy for the browser's route |
| Acceptance.ReportAcceptedIff | e2e/visual/003Evidence.ts:452-550 | a report is accepted if and only if it has no prohibited key, meets the demands of its fields, every claim has the report's own route, and the digest is that of the artifacts listed |
| Acceptance.BuiltDocumentsMeetTheDemands | e2e/visual/003Evidence.ts:330-550 | what the three validators build meets the same demands |
| Acceptance.ReadPrunes | e2e/visual/003Evidence.ts:266-550 | what is built is the input without some of its members: nothing is changed or invented, at any depth |
| Acceptance.NamedKeysAreKept | e2e/visual/003Evidence.ts:266-550 | a named key that the input has is kept, unless its field is a flag |
| Changelog.SplitUndoesTerminated | scripts/changelog-release-notes.py:37 | splitting gives back the lines of a file whose lines are all terminated |
| Changelog.SplitUndoesWriting | scripts/changelog-release-notes.py:37 | the same with any line ends, carriage returns with line feeds among them, and a last line without one |
| Changelog.HeadingIff | scripts/changelog-release-notes.py:12 | a line is a heading of a version if and only if it starts with that version, well formed, in brackets |
| Changelog.CompareLinkIff | scripts/changelog-release-notes.py:13 | a line is a compare link if and only if it starts with a well-formed version in brackets and a colon |
| Changelog.FindSlice | scripts/changelog-release-notes.py:38-52 | the loop finds the slice from the last heading of the version before the first stop after its first heading, to that stop or the end |
| Changelog.SliceIsUnique | scripts/changelog-release-notes.py:38-52 | there is one such slice |
| Changelog.SectionIsNotEmpty | scripts/changelog-release-notes.py:55-57 | the section is never empty |
| Changelog.ExtractSection | scripts/changelog-release-notes.py:36-58 | answers the one slice, trimmed, or that no heading names the version |
| Changelog.ExtractionUndoesRendering | scripts/changelog-release-notes.py:36-58 | from any changelog printed from sections with distinct versions and plain bodies, with trailing links, extracting a version gives exactly its trimmed heading and body |
| Changelog.VersionArgumentIff | scripts/changelog-release-notes.py:63-66 | the argument names a version if and only if it is that version or `v` and that version |
| Changelog.ReleaseNotes | scripts/changelog-release-notes.py:61-74 | the notes are the section, a blank line and the trimmed footer, or the error that applies |
| ElapsedTime.ParseIff | e2e/helpers/webkitProcesses.ts:49-62 | a text has a value if and only if, trimmed, it is a well-shaped spelling, and then that one's |
| ElapsedTime.SpelledIsCaptured | e2e/helpers/webkitProcesses.ts:50 | every well-shaped spelling is read back, so no text has two readings |
| ElapsedTime.ParseUndoesRendering | e2e/helpers/webkitProcesses.ts:49-62 | parsing the printed form of any number of seconds, with any padding and blanks, gives a thousand times that number |
| ElapsedTime.ParseSnapshot | e2e/helpers/webkitProcesses.ts:64-91 | the loop reads the rows in order and leaves unreadable lines out |
| ElapsedTime.RowIsRead | e2e/helpers/webkitProcesses.ts:70-88 | a printed row reads back as what it says |
| ElapsedTime.RowIff | e2e/helpers/webkitProcesses.ts:66-88 | a line is read as a process if and only if its columns spell it: three numbers, a processor share, an elapsed time, a name and maybe a command, with gaps between |
| ElapsedTime.SnapshotReadsItsRows | e2e/helpers/webkitProcesses.ts:64-91 | a printed list with rows and noise reads back as its rows, in order |
| ElapsedTime.WindowIsTight | e2e/helpers/webkitProcesses.ts:180-194 | a new orphan of WebKit's that started at or after the launch is selected when `ps` read its clock within the slack; what is selected is such an orphan, and no older than slack and one second |
| ElapsedTime.LateClockMisses | e2e/helpers/webkitProcesses.ts:180-194 | a clock read one millisecond past the slack can miss the process that started at the launch |
| ElapsedTime.EarlyStartPasses | e2e/helpers/webkitProcesses.ts:180-194 | a process that started a millisecond short of the slack and one second before the launch can be selected |

## Left out

- Menu and label ids, command names and JSON keys are constructors, so that two of the source's distinct string constants are distinct; ids of system items never equal an owned id.
- Platform menu calls are answers given in advance: a full build succeeds or fails as a whole, and a walk has a budget of calls.
- MenuSpec.Validate: which label is named when several are unknown or unacceptable, because the map's key order is not modelled.
- MenuSync.CacheAgreesWithBackend: is about the state a window reported and not about labels, because labels are global; the exact condition for labels is MenuSync.SkippedCallIsRedundantIff.
- MenuSync takes the JSON text of a request to determine it, and leaves `nativeMenuLabels` (a table lookup) out.
- MenuValidation: the id counter does not wrap at 64 bits, and an acknowledgement whose payload does not parse is left out.
- MenuValidation.RoutesFollowTheirEntry: assumes that no acknowledgement guesses an id before its log line, because the code does not prevent it; MenuValidation.RoutesFollowTheirEntryIff has the exact condition.
- CommandLedger: floating-point rounding of the summed frame intervals, file reads and writes, cancellation of a publishing call, bootstrap and ready signals.
- UntitledDrawing: folder names are compared exactly, and nothing is deleted while the loops run; choosing and claiming the folder is left out.
- RestoreTabs: a call and its answer are one step; live `open-file-request` events and listener removal are left out.
- Rendezvous: closing this window's tabs first, a failing listener registration, and the naming of the conflicting folders.
- Digest.DigestIdentifiesEntries: SHA-256 is any function that separates the two texts at hand; its UTF-8 input, in which lone surrogates are not told apart, is not modelled, and the locale's comparison is taken as a total order.
- Evidence: error messages and which of several faults is reported, and values that are not JSON.
- Changelog: `\d` matches ASCII digits only, and missing files are left out.
- ElapsedTime: numbers are unbounded instead of doubles, the processor share keeps its spelling, and spawning and signalling processes are left out.
- The history store, recovery, the window registry, the document manager, the user interface and the remaining end-to-end helpers are not part of this model.
