# The fleet orchestrator and the portal stores, verified

A Dafny model of the repository's ticket orchestrator (`fleet/`) and of the portal stores whose loops keep
history, order or overrides (`portal/db`, `portal/bff`), with proofs of what they promise over every run.
`dafny verify dfyconfig.toml` checks the whole project.

## What is modelled

**The orchestrator.** Workers claim files through an `O_EXCL` lock file around a read-modify-write of one table.
`Claims` takes that protocol apart into file-system steps that any number of workers interleave; `ClaimSafety` has what
holds over all interleavings, and what a release without the lock breaks; `ClaimTables` has the calls as methods.
`Dispatch` runs rounds of workers over the table, and `Threads` shows that the step-by-step protocol is one of its
schedules. `Fleet` and `FleetRuns` are the whole ticket life cycle as one state (tickets, archive, claim table, base
branch, worktrees, running workers) with every command, kills at any point, and `clean`; `Queue` is the dependency gate over rounds; `Landing` is `land --verify` with a flaky suite, each turn of which
is a run of life-cycle steps; `Upkeep` has the loops of `close` and `clean`. `Session` is the restart loop around an
agent session.

**Ticket files.** `Json`, `TextLines` and `FrontMatter` are the string format, the text reader and the front-matter
reader; `Rendering` is the printer. `Sections` is what the reader makes of any front matter. `Editing` and `Blocks` are
the in-place editors, first as the regular expressions on the text, then on lines; `ScalarEdits` says what a one-line edit
reads back as. `TicketFiles` puts printer, editors and reader together over whole lives of a generated file, `FileEdits`
has one edit of any file that can be read. `Trackers` and `Regenerate` go from tracker rows to ticket files. `Scopes`
compares the permission map given to a session with the scope checks at commit and at QA.

**The portal.** `Schedules` (audit log), `Drift` (rescans and triage), `Pagination` over `Base64Url` and `Decimal`,
`Pricing` (overrides) and `Stages` (ordering) over `Sorting`.

Code that changes files, tables or rows is written as classes and methods with loops, each proved equal to a function
of the old state; the laws are lemmas about those functions and about runs of them. Steps of concurrent workers are a
state machine.

Assumptions that are hypotheses of the lemmas that need them: a release that gives up waiting does not go on without
the lock (`SafeExactly` shows whom that leaves safe); `land` does no harm (`Harmless`, for the dependency gate) or merges
only branches that carry a commit (`Solid`, for the order of merges); suite runs report at least what fails every time
(`SilentRunLands` is what a run that crashes without a report does); the lines that an edit replaces hold none of the
rarer line breaks (`LineTakesFieldAlong`); every try gets the lock, every thread returns and the budget is enough, where a
lemma says that `run` gets through (`FinishesExactly`); generated row ids are new; the clock is monotone; a job handed to
a round has no claims left from earlier.

Assumptions that are part of the state machines: tickets being worked on at the same time have distinct ids; in the life
cycle and in a round releases get the lock, and nothing else raises in a release; one `land` runs at a time and nobody
else moves base; `clean` runs while no `run` is alive; kills are immediate; there is one file per ticket id at the flat
path. A kill may hit some processes and spare others, and runs may go on after it without `clean`. The reports of a round
are read in the order of the effects they report.

## Where the code and its documentation differ

The model follows the code.

- `release` (`fleet/lib/runner.py:74-86`) goes on without the lock after 200 tries and then unlinks a lock that may be
  somebody else's; its class promises atomic claims. `LostClaim` is the interleaving: claims are safe in all runs of a
  team of workers if and only if it has at most one (`SafeExactly`).
- `land --verify` resets to `HEAD~1` (`fleet/fleet.py:876`), which takes back another ticket's merge when the branch had
  nothing to merge: `ForeignCommitLost`. An exception from the suite (a timeout) leaves the merge on base unverified. A
  landing is safe whatever an honest suite reports if and only if the branch carries a commit and the suite returns
  (`SafeLandingExactly`).
- For the same reason `run`, which promises to start a ticket only when its dependencies are on base
  (`fleet/fleet.py:642-657`), can start one whose dependency is not: `LostMerge` is a run of seven steps,
  `DependencySafetyExactly` says which steps are to blame.
- `run` sleeps "to let claims drain" when everything is deferred (`fleet/fleet.py:720-721`), but a claim left by a killed
  run never drains: `LoopEndsExactly`. With a lock file left behind it aborts in the first round: `StaleLockAborts`.
- A suite run without a report says "treat this run as invalid" (`fleet/fleet.py:302-303`), and `land` takes it for one
  without failures: `SilentRunLands`.
- `_upsert_field` promises exactly one line (`fleet/fleet.py:116-123`), which holds for lines it recognises; a duplicate
  that is spaced, indented or behind one of the rarer line breaks survives and wins when it comes later. List items below
  a line it removes make the file unreadable or join another field: `FieldTakesExactly`, `ListUnderStatus`,
  `ItemChangesField`.
- `plan` counts as runnable only tickets without `needs_scope_review` (`fleet/fleet.py:334-340`); `run` never looks at that
  field. The model's gate is that of `run`.
- A worker that is killed in the critical section leaves the lock file, and nobody gets or gives back a claim until
  `clean`: `StaleLockBlocks`.
- `clean` decides about worktrees from the statuses it read before resetting them (`fleet/fleet.py:1464-1469`), so a ticket
  it resets keeps its worktree.
- Block edits (`fleet/fleet.py:585-593`) stop at a blank line, so old items below one join the new list, and a block in a
  form the expression does not recognise is not written at all: `ScopeTakesExactly`, `BlankLineJoinsLists`,
  `HiddenScopeStays`.
- `tickets --force` promises to refresh prose only (`fleet/fleet.py:235-236`); it also drops `depends_on`:
  `DependenciesKeptExactly`, `ForceLosesDependencies`.
- Numbered ids (`-dup2`) follow the order of the tracker while files are kept, so a row entered between two of its id
  takes over the second's number, and no file holds its body: `RowPrintedExactly`, `ReorderedRowHasNoFile`.
- The comment on the drift store's refresh says that triage is not touched
  (`portal/db/src/drift-repository.ts:398`); reason, expiry, auto-remediation and override of an open or resolved row are
  cleared: `RescanKeepsTriageExactly`.

## Model

| member | source | states |
|---|---|---|
| `Claims.RefusedOnlyOnClash` | fleet/lib/runner.py:62-70 | a claim is refused exactly when one of its files belongs to another ticket at that instant, and otherwise enters all its files; it never fails half way |
| `Claims.StepKeepsOthers` | fleet/lib/runner.py:63-83 | no step of any worker overwrites or drops a table entry of another ticket |
| `Claims.StepInv` | fleet/lib/runner.py:50-86 | every file-system step of every worker keeps mutual exclusion, listed owners and fresh copies |
| `ClaimSafety.SafeRuns` | fleet/lib/runner.py:50-86 | in every interleaving whose releases get the lock, concurrently held claims are disjoint and each is listed under its ticket |
| `ClaimSafety.ClaimsReturned` | fleet/lib/runner.py:50-86 | once everybody has gone home the lock is free, every claim made is gone, and every claim found is left unless its ticket was worked on |
| `ClaimSafety.RunsAreAtomic` | fleet/lib/runner.py:50-86 | every interleaving does to the table what some order of whole calls does, each granted, denied or returned on the table it finds |
| `ClaimSafety.ReleaseUndoesAcquire` | fleet/lib/runner.py:63-83 | whatever other tickets claim and give back in between, releasing undoes acquiring |
| `ClaimSafety.LostClaim` | fleet/lib/runner.py:76-86 | a release without the lock can lose a claim, after which two workers hold one file |
| `ClaimSafety.SafeExactly` | fleet/lib/runner.py:50-86 | with the code's own releases, claims are safe in all runs of a team of workers if and only if it has at most one |
| `ClaimTables.ClaimTable.TryAcquire` | fleet/lib/runner.py:50-72 | the call raises with the table unchanged when all tries find the lock, refuses on a clash without changing the table, and otherwise enters every file |
| `ClaimTables.ClaimTable.Release` | fleet/lib/runner.py:74-86 | removes exactly the ticket's own entries, and leaves no lock file |
| `Fleet.UnmetEmpty` | fleet/fleet.py:642-665 | nothing is unmet exactly when every dependency is archived or landed |
| `Fleet.DispatchableCleared` | fleet/fleet.py:668-685 | where archived and landed tickets are on base, whatever passes the gate of `run` has the merges of all its dependencies there |
| `Fleet.StepGate` | fleet/fleet.py:378-496 | every command step that does no harm keeps archived and landed tickets on base and the dependencies of everything selected merged |
| `Fleet.RunGate` | fleet/fleet.py:378-496 | ... and so does every run of such steps |
| `Fleet.StepInv` | fleet/fleet.py:829-892 | while `land` merges only branches that carry a commit, every step also keeps the dependencies of everything in flight merged and base in dependency order |
| `Fleet.RunInv` | fleet/fleet.py:829-892 | ... and so does every run, which then does no harm |
| `Fleet.InitInv` | fleet/fleet.py:642-692 | a quiet repository whose archived and landed tickets are on base satisfies what the run theorems ask for |
| `FleetRuns.DependencySafety` | fleet/fleet.py:393-394 | whenever a ticket goes to in-progress, in any run in which `land` does no harm, the merge of every dependency is on base |
| `FleetRuns.DependencySafetyExactly` | fleet/fleet.py:855-881 | after a step a ticket can come to be selected with a dependency not on base if and only if the step took back a commit somebody needs or landed a ticket that is not on base |
| `FleetRuns.LostMerge` | fleet/fleet.py:855-881 | a landing of nothing that is reverted removes another ticket's merge, and the ticket waiting for that one is let through |
| `FleetRuns.MergeOrder` | fleet/fleet.py:850-892 | while only branches that carry a commit are merged, merges extend base and come in an order that extends `depends_on` |
| `FleetRuns.IdsConserved` | fleet/fleet.py:1064-1104 | no run loses an id, changes a dependency list, or makes an id both open and archived |
| `FleetRuns.FleetClaimsSafe` | fleet/fleet.py:389-496 | claims stay safe through runs with kills of any workers in them, whether followed by `clean` or by more work |
| `FleetRuns.StaleLockBlocks` | fleet/lib/runner.py:52-86 | after a kill that hits somebody in the critical section nobody gets or gives back a claim, whoever lives on and whatever is started, until `clean` |
| `FleetRuns.InProgressIsWorkedOn` | fleet/fleet.py:393-496 | unless a run was killed, a ticket is in progress only while a worker is on it |
| `FleetRuns.CycleNeverRuns` | fleet/fleet.py:642-692 | tickets on a cycle with no member on base are never selected, claimed, given a worktree or merged, while only branches that carry a commit are landed |
| `FleetRuns.CrashRecovery` | fleet/fleet.py:1456-1474 | from any point of any run, killing everything and then `clean` gives no claims, no lock, nothing in progress, everything else as it was, and whatever the run theorems ask for again if it held before |
| `Queue.OpenAfterExactly` | fleet/fleet.py:642-692 | a ticket is still open after n landing rounds exactly when it heads a chain of n + 1 open dependencies |
| `Queue.QueueEmpties` | fleet/fleet.py:642-692 | longest-chain many rounds empty the queue |
| `Queue.QueueNeedsLongestChain` | fleet/fleet.py:642-692 | fewer rounds do not |
| `Queue.QueueEmptiesExactly` | fleet/fleet.py:642-692 | some number of rounds empties the queue if and only if the dependencies of open tickets are acyclic |
| `Queue.SomethingIsReady` | fleet/fleet.py:677-680 | with acyclic dependencies a non-empty queue always has a runnable ticket |
| `Dispatch.OneRound` | fleet/fleet.py:708-722 | however a round is scheduled, every ticket is reported once, all claims are given back, foreign-blocked tickets come back unless a thread raised, and if there are none at least one ticket is done with |
| `Dispatch.LoopEndsExactly` | fleet/fleet.py:704-724 | the loop ends if and only if no claim left by somebody else blocks one of its tickets, or a thread raises, or the budget is exceeded; in the first case within one round per ticket |
| `Dispatch.FinishesExactly` | fleet/fleet.py:704-724 | the command gets through all its tickets if and only if none is blocked and in one round per ticket nobody raises and the budget is enough |
| `Dispatch.GentleFinishesExactly` | fleet/fleet.py:704-724 | where every try gets the lock, every thread returns and the budget covers every ticket, leftover claims alone decide that |
| `Dispatch.StaleLockAborts` | fleet/lib/runner.py:52-61 | with a lock nobody removes, the first round ends the command and no ticket with a scope has been worked on |
| `Dispatch.HistoryBalances` | fleet/fleet.py:704-724 | no round loses a ticket or has it done twice |
| `Dispatch.SomeScheduleExists` | fleet/fleet.py:707-710 | the schedules the theorems range over exist |
| `Dispatch.Collect` | fleet/fleet.py:711-721 | reads reports in order, separates deferred from done, and stops where an exception passes through or the budget is exceeded |
| `Dispatch.EventsAreCalls` | fleet/lib/runner.py:62-83 | a round does to the table what a list of whole calls of the claim protocol does, each granted or denied as there |
| `Dispatch.Run` | fleet/fleet.py:704-724 | after any number of rounds, what is done, pending and decided is what the rounds' history says |
| `Threads.ThreadsAreASchedule` | fleet/fleet.py:378-496 | whatever the threads of a round do in the step-by-step protocol is one of the round's schedules, with the same table and reports |
| `Threads.ThreadsFinishRound` | fleet/fleet.py:378-496 | so what holds of a round under every schedule holds of every interleaving of its threads |
| `Landing.VerdictIsFair` | fleet/fleet.py:855-881 | a landed merge leaves base inside the baseline, a merge that breaks a test for good never lands, and only a failure seen in both runs takes one back |
| `Landing.RevertRestoresBaseExactly` | fleet/fleet.py:829-881 | refusals and conflicts leave base alone, and a revert restores it exactly when the merge had made a commit |
| `Landing.SoundOutcome` | fleet/fleet.py:829-891 | what can be seen before and during a landing decides whether it takes back a foreign commit or leaves one behind unverified |
| `Landing.KeepsBaselineExactly` | fleet/fleet.py:829-891 | one landing keeps base inside the baseline, whatever fails where, if and only if it is sound in that sense |
| `Landing.ForeignCommitLost` | fleet/fleet.py:855-881 | nothing to merge and the same new failure twice: the last commit of base is lost |
| `Landing.SilentRunLands` | fleet/fleet.py:294-304 | a run that crashes without a report lands anything; it is the case that the laws about honest runs leave out |
| `Landing.SafeLandingExactly` | fleet/fleet.py:829-891 | a landing is safe whatever an honest suite reports if and only if the branch carries a commit and the suite always returns |
| `Landing.VerifiedLanding` | fleet/fleet.py:829-891 | the whole command keeps base inside the baseline when each landing is sound |
| `Landing.BaseIsWhatLanded` | fleet/fleet.py:829-891 | then base ends up as it was plus the merges of the tickets that landed, in order |
| `Landing.Lander.LandTicket` | fleet/fleet.py:829-891 | one turn of the loop changes base and status as the landing function says |
| `Landing.Lander.Land` | fleet/fleet.py:829-892 | the loop is the landing function over the list, stopping where an exception escapes |
| `Landing.LandRefines` | fleet/fleet.py:829-891 | one turn of the loop is a legal run of life-cycle steps, with the same base and statuses |
| `Upkeep.Office.Close` | fleet/fleet.py:1083-1104 | the loop over ids moves, refuses or skips each, with the gates looking at what has been moved so far |
| `Upkeep.CloseConserves` | fleet/fleet.py:1083-1104 | closing loses and duplicates no id, touches no other ticket, and moves as many as it counts |
| `Upkeep.OnlyLandedClose` | fleet/fleet.py:1089-1092 | without force only landed tickets are archived, unchanged but for the status |
| `Upkeep.CloseRefines` | fleet/fleet.py:1083-1104 | a plain close is a legal run of life-cycle steps, so every run theorem covers it |
| `Upkeep.ForcedCloseExactly` | fleet/fleet.py:1089-1103 | after a forced close a ticket that waited for it is let through, with its dependencies not all on base if and only if the closed ticket's merge is not there |
| `Upkeep.Office.Clean` | fleet/fleet.py:1462-1472 | tickets in progress are reopened, worktrees of landed and open ones dropped by their old status, claims and lock removed |
| `Scopes.WriteSessionConfig` | fleet/lib/runner.py:169-183 | the loop builds the ordered permission map |
| `Scopes.AllowedBySomeRule` | fleet/lib/runner.py:169-183 | under last-match-wins a path is allowed exactly when some rule behind the catch-all matches |
| `Scopes.MapMatchesScope` | fleet/lib/runner.py:169-183 | without wildcards, a session may edit exactly what the scope covers and, if enabled, files below a tests directory |
| `Scopes.AgreementExactly` | fleet/lib/runner.py:169-183 | on one entry the map and the scope check agree on all paths if and only if the entry has no wildcard |
| `Scopes.AllowedIsInScope` | fleet/fleet.py:436-439 | every allowed edit is in scope for the commit and for QA |
| `Scopes.NoStraysExactly` | fleet/fleet.py:761-765 | QA finds no stray exactly when every changed file passes the commit filter |
| `Scopes.BranchPassesScopeCheck` | fleet/fleet.py:442-464 | whatever the attempts at a ticket, its branch has no stray in QA while the scope is unchanged |
| `Session.RunSession` | fleet/lib/runner.py:264-282 | the loop is the session function over any agent behaviour |
| `Session.RunLaw` | fleet/lib/runner.py:264-282 | all attempts but the last stalled, the last one's status is returned unless it stalled with retries or time used up, and the time is that of attempts and pauses |
| `Session.AttemptBound` | fleet/lib/runner.py:277-281 | at most one attempt more than the retries, and never a stall as the result |
| `Session.DeadlineExactly` | fleet/lib/runner.py:264-270 | every session ends less than a second past its deadline if and only if its timeout is positive |
| `Json.LoadsDumps` | fleet/lib/tickets.py:238 | every string is read back from its JSON form |
| `Json.EscapePrintable` | fleet/lib/tickets.py:238 | the JSON form is printable ASCII, so it cannot break a line |
| `Json.ScanVerbatim` | fleet/fleet.py:144 | unescaped text without quotes, backslashes and control characters reads as itself |
| `TextLines.ReadTextExactly` | fleet/fleet.py:65 | text survives a write and a read exactly when it has no carriage return |
| `FrontMatter.ReadWritten` | fleet/fleet.py:41 | the terminator found is the one written, for any front matter without a mark line inside, whatever the body |
| `FrontMatter.WriteRead` | fleet/fleet.py:41 | every file that has front matter is its parts written out again |
| `FrontMatter.FeedSplitLines` | fleet/fleet.py:71 | the reader sees the written lines, unless one contains one of Python's rarer line breaks |
| `Rendering.Render` | fleet/lib/tickets.py:226-260 | the printer's loops produce the specified text |
| `Rendering.RoundTrip` | fleet/lib/tickets.py:212-260 | a generated ticket reads back with every field and its exact body |
| `Rendering.RoundTripExactly` | fleet/lib/tickets.py:212-260 | it does so if and only if list items are trimmed single lines and the body has no carriage return |
| `Rendering.LoadedClean` | fleet/fleet.py:72-96 | whatever file is read, list items come back trimmed and unbroken |
| `Editing.UpsertLines` | fleet/fleet.py:124-137 | the regular expressions on the text are the line edit |
| `Editing.ExactlyOneLine` | fleet/fleet.py:116-123 | after an edit the field has exactly one line, however many it had |
| `Editing.FixedPointExactly` | fleet/fleet.py:124-137 | the second repetition changes nothing more, and the first changes nothing exactly when the field was there before |
| `Sections.ReadsAsSections` | fleet/fleet.py:69-96 | any front matter is refused exactly when items stand below a field that is no list, and otherwise each field holds what its last section holds |
| `ScalarEdits.UpsertSections` | fleet/fleet.py:124-137 | an edit gives the first section of the field the new value, drops its others, and lets the items below them fall to the section before |
| `ScalarEdits.EditTakesExactly` | fleet/fleet.py:116-137 | exactly when the result can be read, when the other fields are the same, and when the field reads as written |
| `Blocks.ReplaceAgrees` | fleet/fleet.py:591-592 | the block regular expression on the text, with its optional brackets below blank lines, is the line edit |
| `Blocks.ChildrenAgrees` | fleet/fleet.py:1420-1427 | the same for the children editor, which appends a missing block |
| `Blocks.ReplaceTakesExactly` | fleet/fleet.py:585-593 | after a block edit of readable lines every other field reads as before, and the edited one as written if and only if nothing behind the block joins or resets it, or, without a recognised block, it read so before |
| `Blocks.BlankLineJoinsLists` | fleet/fleet.py:591-592 | otherwise old items behind a blank line join the new list |
| `Blocks.ScopeFixedPoint` | fleet/fleet.py:585-593 | setting the same scope twice is setting it once, in any file |
| `Blocks.ChildrenFixedPointExactly` | fleet/fleet.py:1416-1427 | filing the same children twice is filing them once if and only if there are any or the field is in a form the editor does not recognise |
| `TicketFiles.TicketFile.SetStatusField` | fleet/fleet.py:140-149 | the method, looping over extra fields, changes the file as specified, and leaves a file without front matter alone |
| `TicketFiles.TicketFile.SetScopeBlock` | fleet/fleet.py:585-593 | the same for scope |
| `TicketFiles.TicketFile.SetChildrenBlock` | fleet/fleet.py:1416-1427 | the same for children |
| `TicketFiles.PutScalarLines` | fleet/fleet.py:124-137 | a scalar edit of the printed lines is a replacement or addition of one entry |
| `TicketFiles.PutListLines` | fleet/fleet.py:585-593 | a block edit of the printed lines is a replacement or addition of one entry |
| `TicketFiles.TidyReads` | fleet/fleet.py:63-96 | a file of distinct entries reads as those entries and its body |
| `TicketFiles.EditPuts` | fleet/fleet.py:140-149 | every edit of such a file gives such a file, with the edited fields as written and the others unchanged |
| `TicketFiles.EditedTicketReads` | fleet/fleet.py:140-149 | a generated ticket after any sequence of edits reads as generated, each edited field as last written, with its exact body |
| `FileEdits.FieldTakesExactly` | fleet/fleet.py:116-137 | one field of any readable file whose replaced lines hold no rarer line break: when the file can be read again, keeps its other fields, and reads as written, each if and only if; the body is the same |
| `FileEdits.StatusTakesExactly` | fleet/fleet.py:140-149 | that is what setting the status does |
| `FileEdits.ExtrasOneByOne` | fleet/fleet.py:145-148 | and extra fields are further edits of one field each |
| `FileEdits.ScopeTakesExactly` | fleet/fleet.py:585-593 | setting the scope of any readable file whose replaced block holds no rarer line break keeps it readable, with its body and other fields, and takes exactly when the block edit does |
| `FileEdits.ChildrenTakeExactly` | fleet/fleet.py:1416-1427 | so does filing children, which appends a missing field |
| `FileEdits.ListUnderStatus` | fleet/fleet.py:124-137 | a file with a list for its status cannot be read any more once the status is set |
| `FileEdits.ItemChangesField` | fleet/fleet.py:124-137 | an item below a second status line joins another field |
| `FileEdits.HiddenScopeStays` | fleet/fleet.py:585-593 | a scope behind a line break that only the reader sees stays, whatever scope is set |
| `FileEdits.LineTakesFieldAlong` | fleet/fleet.py:124-137 | a field behind such a line break in the status line is lost with it |
| `Trackers.SplitCollisions` | fleet/fleet.py:193-220 | the loops group, collapse and rename rows as specified |
| `Trackers.SplitIsFaithful` | fleet/fleet.py:193-220 | ids are pairwise distinct, no row is invented, no id is dropped, and every actionable row is represented by one of its id with the same first 200 characters |
| `Trackers.Representative` | fleet/fleet.py:193-220 | exactly one row stands for each actionable row of the tracker |
| `Regenerate.Folder.WriteTickets` | fleet/fleet.py:222-248 | the loop writes the files the specification says, up to the first unreadable one |
| `Regenerate.ArchivedStays` | fleet/fleet.py:226-228 | an archived id is never written again, whatever the flags |
| `Regenerate.WorkedSurvives` | fleet/fleet.py:238-243 | a ticket that was worked on survives everything but force-all |
| `Regenerate.UnforcedKeeps` | fleet/fleet.py:244-246 | without force no existing file changes |
| `Regenerate.IdsConserved` | fleet/fleet.py:222-248 | open and archived ids stay apart and no open id is lost |
| `Regenerate.EachRowDecides` | fleet/fleet.py:222-248 | with distinct ids each row alone decides what happens to its file |
| `Regenerate.RegeneratingSettles` | fleet/fleet.py:222-248 | the same run again changes no file, with any flags |
| `Regenerate.RowFiledExactly` | fleet/fleet.py:222-248 | after a run a row's file is its printed text if and only if it was that before, or the row is not skipped and its file was missing or the flags refresh it |
| `Regenerate.RowPrintedExactly` | fleet/fleet.py:193-248 | every actionable tracker row has one place, and its printed text there if and only if it was there before, or its id is not archived and its file was missing or is refreshed |
| `Regenerate.ReorderedRowHasNoFile` | fleet/fleet.py:193-248 | a row entered between two of its id is left without a file, and every file is the text of a row with another body |
| `Regenerate.DependenciesKeptExactly` | fleet/fleet.py:235-247 | dependencies read after a run as before if and only if there were none, the row is skipped, or the flags do not refresh it |
| `Regenerate.ForceLosesDependencies` | fleet/fleet.py:235-247 | a forced refresh of an open ticket with a dependency drops it |
| `Schedules.Repository.CreateSchedule` | portal/db/src/schedule-repository.ts:263-308 | a taken id fails and changes nothing, otherwise row and event are written together |
| `Schedules.Repository.UpdateSchedule` | portal/db/src/schedule-repository.ts:310-358 | missing rows, system timers and patched rows are told apart, and only the last write |
| `Schedules.Repository.SoftDeleteSchedule` | portal/db/src/schedule-repository.ts:360-379 | the same for deletion, which a deleted row refuses |
| `Schedules.ReplayRebuilds` | portal/db/src/schedule-repository.ts:201-247 | over every history, also with other stores writing to the log, folding the `after` snapshots rebuilds the table |
| `Schedules.ChainUnbroken` | portal/db/src/schedule-repository.ts:201-247 | each event's `before` is its target's previous `after` |
| `Schedules.ChangesAreLogged` | portal/db/src/schedule-repository.ts:263-379 | a row changes exactly when one event with its old and new snapshot is logged |
| `Schedules.SystemFrozen` | portal/db/src/schedule-repository.ts:310-379 | a system timer's row never changes after creation |
| `Schedules.IdentityKept` | portal/db/src/schedule-repository.ts:310-379 | no row is lost, moves between system and user, or comes back from deletion |
| `Drift.Repository.UpsertDeviations` | portal/db/src/drift-repository.ts:385-450 | the loop refreshes, inserts and counts as specified |
| `Drift.Repository.SetDeviationTriage` | portal/db/src/drift-repository.ts:484-512 | a triage write changes one row's triage and returns the row |
| `Drift.BatchGet` | portal/db/src/drift-repository.ts:385-450 | what a whole batch does to a row depends only on the key's last report, however often it was reported |
| `Drift.SettledSurvives` | portal/db/src/drift-repository.ts:385-450 | over any history without a triage write, a settled row keeps its triage and id, and its observed values are those last reported |
| `Drift.RescanKeepsTriageExactly` | portal/db/src/drift-repository.ts:398-415 | a report leaves a row's triage alone if and only if it is settled or there is none |
| `Drift.RowsPersist` | portal/db/src/drift-repository.ts:385-512 | over any history rows are never lost, ids are stable, and observed values are the last reported |
| `Drift.KeysStayUnique` | portal/db/src/drift-repository.ts:385-512 | keys stay unique over any history |
| `Drift.BatchIdsUnique` | portal/db/src/drift-repository.ts:422-436 | row ids stay unique |
| `Drift.OtherTenantsUntouched` | portal/db/src/drift-repository.ts:385-450 | a scan leaves the rows of other tenants as and where they are |
| `Drift.CountersAddUp` | portal/db/src/drift-repository.ts:389-449 | the counters add up to the batch, and the inserted ones to the new rows |
| `Drift.OrderDoesNotMatter` | portal/db/src/drift-repository.ts:417-446 | two orders of a batch with distinct keys leave the same rows |
| `Drift.StateCountsAddUp` | portal/db/src/drift-repository.ts:537-548 | the counts per state add up to the rows |
| `Drift.OpenCountsExact` | portal/db/src/drift-repository.ts:550-555 | a tenant is listed exactly when it has an open row, with their number |
| `Drift.OpenCountsAddUp` | portal/db/src/drift-repository.ts:550-555 | the open counts of all tenants add up to the open rows |
| `Base64Url.RoundTrip` | portal/bff/src/pagination.ts:41-49 | unpadded base64url gives back any bytes |
| `Decimal.ParsePrint` | portal/bff/src/pagination.ts:41-49 | decimal numerals give back any natural number |
| `Pagination.ClampLimit` | portal/bff/src/pagination.ts:18-33 | the limit is between 1 and 1000, and the nearest such number to a whole one asked for |
| `Pagination.CursorRoundTrip` | portal/bff/src/pagination.ts:41-54 | every exactly representable offset comes back from its cursor |
| `Pagination.WalkFrom` | portal/bff/src/pagination.ts:56-64 | from any cursor, also a made-up one, the pages are the rest of the list, all but the last full |
| `Pagination.WalkIsTheList` | portal/bff/src/pagination.ts:56-64 | following the cursors gives the list, on one page or the rounded-up quotient |
| `Pricing.FoldIsLookup` | portal/db/src/licensing-repository.ts:158-189 | in whatever order rows come, the list's entry for a SKU is what the lookup finds |
| `Pricing.ListLicensePricing` | portal/db/src/licensing-repository.ts:169-189 | one row per SKU with an applicable price, sorted, each the looked-up one |
| `Pricing.Repository.UpsertLicensePricing` | portal/db/src/licensing-repository.ts:191-268 | updates or inserts, logs one event with the row before and after, keeps one row per SKU and tenant, and reads back what it wrote |
| `Pricing.UpsertLookup` | portal/db/src/licensing-repository.ts:191-268 | an upsert sets the price of its SKU and tenant and no other |
| `Pricing.PriceIsLastWritten` | portal/db/src/licensing-repository.ts:158-268 | after any run of upserts a tenant pays its last override, or else the last global price |
| `Pricing.AuditChain` | portal/db/src/licensing-repository.ts:205-252 | over any run of upserts each event's `before` is what the last earlier event of its SKU and tenant wrote |
| `Stages.NormalizeStageInputs` | portal/db/src/baselines-repository.ts:171-190 | the checking loop reports the first complaint or the sorted stages |
| `Stages.AcceptsExactly` | portal/db/src/baselines-repository.ts:171-190 | accepted are exactly the inputs whose orders are a permutation of 0..n-1, with known actions and non-empty keys |
| `Stages.AcceptedInPlace` | portal/db/src/baselines-repository.ts:171-190 | the result is a permutation of the input with stage i at index i |
| `Stages.Repository.SetStages` | portal/db/src/baselines-repository.ts:343-354 | replaces the stages of one baseline, or changes nothing on an unknown one or bad input |
| `Stages.ReadBack` | portal/db/src/baselines-repository.ts:208-218 | reading back gives the normalised stages, and other baselines are untouched |

## Left out

- Processes, signals, threads as such, log streaming and event parsing: an agent attempt is a status and a duration.
- Git: base is a list of merges, rebases and merges succeed or leave everything alone; file names that `git status` or `git diff` quote or split are not modelled.
- The test suite and its XML: an oracle of failing test ids.
- The title and severity guesses of the tracker parser, and whether a row is actionable: parameters.
- `sync`, `doctor`, `index`, `epics` and status printing: reports.
- A claim table that is not valid JSON, which the code reads as empty.
- Claims compare scope entries, so disjointness is of entries; it is of files when scopes name files.
- `--force`, `--override` and `--force-all` in the life cycle's runs: `Upkeep` and `Regenerate` show what each breaks.
- Ticket files outside the flat folder, and two files for one id.
- Lone surrogates in JSON strings, which a character here cannot be; the reader refuses them.
- Glob syntax beyond `*`, `**` and `?` in the session runtime, whose matcher is not part of this model.
- File writes are atomic; only the claim protocol is taken apart further.
- An attempt's own time limits: it is taken to end when its time is up.
- `Number()` on cursor or limit text other than plain digits, and what Node does with padding inside a cursor: parameters.
- Stage orders that are not numbers, and collation itself: an order of SKUs is any total preorder.
- SQL types and checks: rows have the types the TypeScript interfaces give them; a failing transaction changes nothing.
- The filter and report template stores, whose audit snapshots do not contain everything they write.
- HTTP routes, configuration, contract validators, one-row repositories, dashboards and the user interface.
- Pricing.ListLicensePricing: the list without a tenant, which is a single query.
- Upkeep.Office.Close: the list of landed tickets used when no ids are given, and the gates on notes, reports and follow-ups, are parameters.
- FileEdits.FieldTakesExactly: files with one of the rarer line breaks in a line that the edit replaces, where what stands behind the break is lost.
- FileEdits.StatusTakesExactly: as `FieldTakesExactly`.
- FileEdits.ScopeTakesExactly: files with such a break in the block that is replaced.
- FileEdits.ChildrenTakeExactly: as `ScopeTakesExactly`.
