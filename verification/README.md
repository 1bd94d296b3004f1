# A verified model of cloop's control-plane protocols

cloop is a command-line control plane for coding agents. This project models, in Dafny, the parts of it whose
correctness is an argument about many steps or several processes, and proves what they keep:

- **`HubCA`, `HubInvariant`, `HubRotation`, `HubProgress`, `HubCut`, `HubControl`**: replacing the hub's certificate
  authority online. Members adopt, serve and drop CAs at different times while sandboxes run with the trust they were
  dispatched with. `HubCA` is the state machine of every step, `HubInvariant` what each keeps; `HubRotation`,
  `HubProgress` and `HubCut` are about whole runs: that they are safe, that they finish, and what an emergency cuts;
  `HubControl` is the operator's command, with the loops that read members and runs.
- **`AuditLog`, `AuditCommands`, `AuditCheckpoints`, `AuditDelivery`, `AuditProgress`, `AuditStream`**: the hash-linked
  audit trail. Appends, prunes that seal and cut a prefix, anchors, verification, checkpoints kept off the database, at-least-once
  forwarding to sinks by several would-be leaders, and the offline check of a received stream. A hash is the term it
  was computed from, so equal hashes mean equal inputs. `AuditProgress` says what prunes take and that forwarding ends.
- **`GitHubSync`, `GitHubOutcome`, `GitHubCommands`**: two-way sync between a plan's tasks and a repository's issues, as
  functions of the two sides, what that means for statuses and texts, and the commands that mutate tasks in place and
  call the API.
- **`NodeHealth`**: scheduling health of executors under probes and operators, several processes on one store, the
  drain wait and the fleet listing.
- **`ChatStream`, `FlagList`, `ShellQuote`** (on **`Text`**): streamed answers, flag flattening and shell quoting.
- **`CostReport`**, **`Checkpoints`**: the spend report and named checkpoints.
- **`ConfigSet`**, **`ConfigText`**, **`ConfigOrder`**: `config set` as load, repair, overlay of the environment,
  assignment, check and save of the whole configuration, what each key makes of its text, and which pairs of sets can be
  made in either order.

`dafny verify dfyconfig.toml` checks everything.

Several promises turned out to hold only under a condition. Each is proved as an equivalence or with the concrete
run that breaks it:

- A row can end up in two archives when a second prune is sealed before the first one cuts; archives then table are
  the history exactly when every cut starts where the one before it ended (`AuditLog.ArchivesThenTableIff`,
  `AuditLog.OverlappingPrunes`). Such an archive also fails the checkpoint check (`AuditCheckpoints.HonestPassesIff`).
- A dispatch takes its CAs first and is put on record last, and only runs on record are looked at. An activation nobody
  forces names every run it breaks exactly when no dispatch under way lacks the staged CA
  (`HubRotation.ActivationNamesAllIff`, `HubRotation.AnOverlookedRun`); a quiet rotation breaks nothing under that guard
  (`HubRotation.QuietRotationBreaksNothing`).
- An emergency's cut reads only the newest rotation, and only runs on record: a member's refresh leaves no session of a
  run lacking the active CA exactly when it held none, or the last rotation begun is an emergency it has not cut for and
  none of them is of a dispatch under way (`HubCut.TickCutsIff`, `HubCut.EmergencyCutsIff`, `HubCut.AnUncutSession`,
  `HubCut.AnUnlistedSession`).
- Giving a sandbox the active CA alone after an activation is sound exactly while every served leaf is the new CA's
  (`HubRotation.UncoveredDispatchBreaks`).
- A cordon or drain is to stop new placement at once. Starting the run of a project bound to the node, or defaulting to
  it, reads no node's health; a choice made before the hold is recorded after it; and a read of health that fails counts
  as a ready node, which a comment in the source takes to be harmless. Work in flight of a held node only shrinks exactly
  when no project is bound to it, no earlier choice of it is pending, no probe under way read it before and no read fails
  (`NodeHealth.HeldOnlyShrinksIff`, `NodeHealth.DrainedStaysIdleIff`, `NodeHealth.CordonedNodeTakesBoundWork`).
- A probe writes back the whole record it read, so a cordon given while it waits is lost; a hold is safe exactly when
  no probe under way read the node before it and no read of it fails (`NodeHealth.HoldIsSafeIff`,
  `NodeHealth.LostCordon`, `NodeHealth.BlindProbeLosesTheHold`).
- A sync reads one page of 100: it links every open issue exactly when fewer than 100 open issues and pull requests are
  newer than each one without a task (`GitHubSync.SyncReachesAllIffCovered`, `GitHubSync.PageHidesTheOldest`); a push
  before it takes one place more for each task without an issue (`GitHubSync.PushThenSync`). A repeated `--force` sync
  changes nothing only under the condition of `GitHubSync.ForcedIdempotentIff`.
- The stream check tells a repeat by its hash alone, so an altered repeat is not reported
  (`AuditStream.AlteredRepeatIsNotReported`).
- `config set` saves the defaults, the file over them, repaired, and the environment over that: it changes its own key
  alone exactly when the file holds every other key that has a default, loading leaves the other keys as they are, the
  environment says what the file holds, and the value is not a credential the environment supplies
  (`ConfigSet.SetChangesOnlyItsKeyIff`, `ConfigSet.DefaultsAreWritten`, `ConfigSet.LimitIsRepairedOnTheWay`,
  `ConfigSet.ProviderIsWritten`).
- Two pairs of its keys cannot be set in either order: the limits on connections and the write-back budgets; nor can a
  key the environment overlays with another value (`ConfigOrder.SetsCommuteIff`, `ConfigOrder.LimitsDoNotCommute`,
  `ConfigOrder.BudgetsDoNotCommute`).
- `env export` prints keys unquoted: a line reads back exactly when the key needs no quoting
  (`ShellQuote.ExportReadsBackIff`).
- Two checkpoint names that come out the same once sanitized share a file: the later save replaces the earlier one
  (`Checkpoints.LaterSaveKeepsIff`, `Checkpoints.NamesCollide`).
- `executor drain` says a node stays draining until an uncordon: a cordon makes it cordoned, and it is what was last
  asked for exactly when no probe ends with another state read (`NodeHealth.HeldAsLastAskedIff`).
- A dry run of a push counts what the push will do exactly when no open issue is linked to two finished tasks
  (`GitHubSync.DryRunTellsIff`).

## Model

| member | source | states |
|---|---|---|
| `HubInvariant.StepKeeps` | pkg/hubca/rotate.go:501-889 | every step of a rotation, by an operator, a member (silence included), a dispatch begun or put on record, or a run, keeps the invariant of slots, stored leaves, members' views and reports, runs' trust and cut sessions |
| `HubInvariant.ActivateKeeps` | pkg/hubca/rotate.go:645-695 | activating once no member is behind keeps it; forced, the runs named are the ones left out of it |
| `HubInvariant.RetireKeeps` | pkg/hubca/rotate.go:705-760 | retiring the previous CA, with leaves nobody serves reissued, keeps it |
| `HubInvariant.EmergencyKeeps` | pkg/hubca/rotate.go:818-889 | replacing every CA at once keeps it |
| `HubInvariant.TickKeeps` | pkg/ui/hubtls.go:319-369 | a member's refresh (CAs, leaves, cut, report) keeps it |
| `HubInvariant.BeginKeeps` | pkg/ui/hubtls.go:593-740 | beginning a dispatch with a member's view, or its active CA alone, keeps it |
| `HubInvariant.RecordKeeps` | pkg/ui/executor.go:795-816 | so does putting it on record, however late |
| `HubInvariant.SettleKeeps` | pkg/hubca/server.go:176-250 | settling one monitor's leaf between refreshes keeps it |
| `HubRotation.ReachableIsSafe` | cmd/hub_ca_cmd.go:51-84 | in every reachable state a sandbox, on record or starting, that nothing named as breaking and no activation or emergency overlooked trusts the CA behind any leaf a member serves, but for leaves of CAs an emergency replaced |
| `HubRotation.QuietRotationBreaksNothing` | cmd/hub_ca_cmd.go:51-84 | with no forced activation, emergency or uncovered dispatch, and no activation past a dispatch under way without its CA, every sandbox trusts every served leaf at every point |
| `HubRotation.ActivationNamesAllIff` | pkg/hubca/rotate.go:645-695 | short of another activation or emergency, an unforced activation breaks no run it did not name exactly when no dispatch under way lacked the staged CA |
| `HubRotation.AnOverlookedRun` | pkg/ui/executor.go:632-816 | a concrete run: a dispatch given the old CA goes on record after an unforced activation, and the reissue breaks it unnamed |
| `HubRotation.ForcingBreaksARun` | cmd/hub_ca_cmd.go:51-84 | forcing past a run lacking the staged CA breaks it at the next reissue; one on record is named, and is what an unforced activation refuses |
| `HubRotation.UncoveredDispatchBreaks` | pkg/ui/hubtls.go:668-740 | a dispatch given one CA outside the covered case fails to verify a leaf at once or after one refresh |
| `HubCut.TickLeaves` | pkg/ui/hubtls.go:388-437 | of a member's sessions of runs lacking the active CA, a refresh leaves those of dispatches under way if it cuts, else all |
| `HubCut.TickCutsIff` | pkg/ui/hubtls.go:388-437 | so it leaves none exactly when there was none, or it cuts and none was under way |
| `HubCut.EmergencyCutsIff` | cmd/hub_ca_cmd.go:239-261 | whatever happens between an emergency and a member's first refresh since: no such session is left exactly when there was none, or the last rotation begun since is an emergency, or none is, and none of them was under way; after a stage every session stays open |
| `HubCut.CutsStayCut` | pkg/ui/hubtls.go:388-437 | after a cut, the only such sessions while the emergency is the newest rotation are those the cut found under way |
| `HubCut.AnUncutSession` | cmd/hub_ca_cmd.go:239-261 | a concrete run in which a session of a run on record lacking the active CA survives, a stage having come first |
| `HubCut.AnUnlistedSession` | pkg/ui/hubtls.go:408-418 | and one in which a dispatch under way at the emergency goes on record after its member's cut, and keeps its session |
| `HubRotation.AllTickedNobodyBehind` | pkg/hubca/rotate.go:308-370 | once every serving member has refreshed, no step waits for a member |
| `HubProgress.RotationFinishesIff` | pkg/hubca/rotate.go:501-760 | a rotation finishes: with every member of a build that takes part, the staged CA is activated exactly if no run on record holds it up or it is forced, and then the previous one is retired; one CA alone is trusted and behind every leaf |
| `HubProgress.EmergencyFinishes` | pkg/hubca/rotate.go:818-889 | an emergency is accepted at once, leaves its own CA alone trusted, names each run on record that is unlabelled or uses the CA, and is behind every leaf after each member's refresh |
| `HubProgress.StepsMoveSlots` | pkg/hubca/rotate.go:501-889 | what each accepted step leaves in the slots: a retirement and an abort the active CA alone, an emergency the one it minted |
| `HubProgress.AcceptedIff` | pkg/hubca/rotate.go:501-889 | a stage, an abort and an emergency are accepted exactly by the phase or the members' builds; the other two are refused in any other phase |
| `HubProgress.AbortUndoesStage` | pkg/hubca/rotate.go:768-812 | staging and abandoning gives back the CAs there were |
| `HubProgress.SilenceBlocks` | pkg/hubca/rotate.go:308-370 | a member gone silent holds up an activation, forced or not, and a retirement |
| `HubProgress.DispatchIsTold` | pkg/ui/hubtls.go:593-740 | a dispatch is told its member's CAs, or the active one alone, and its record says just that |
| `HubProgress.DispatchDoesNotBlock` | pkg/hubca/rotate.go:667-680 | one begun on a member that has adopted the staged CA does not hold up its activation |
| `HubProgress.SettledLeafIs` | pkg/hubca/server.go:176-250 | a stored leaf of a CA the member knows is served as it is, any other replaced by one of the active CA |
| `HubProgress.ComersAreThere` | pkg/ui/hubtls.go:258-370 | a member joins with the CAs it can know, a monitor starts with a leaf of the active CA, and an adopted view is the current one |
| `HubProgress.GoneIsGone` | pkg/ui/hubtls.go:258-370 | a member that leaves goes with its sessions, a monitor that stops with its leaf, a run that ends with its sessions |
| `HubControl.ScanMode` | cmd/hub_ca_cmd.go:105-119 | the mode scan finds the one flag given, or that two clash |
| `HubControl.Choose` | cmd/hub_ca_cmd.go:107-147 | a step is chosen only by its own flag; force reaches activation only; a destructive step needs its confirmation |
| `HubControl.Wait` | cmd/hub_ca_cmd.go:401-424 | waiting succeeds exactly when some reading up to the first late one is settled |
| `HubControl.ControlPlane.MembersBehind` | pkg/hubca/rotate.go:308-370 | the members found behind are exactly the ones judged so, a member gone silent included |
| `HubControl.ControlPlane.RunsBreaking` | pkg/hubca/rotate.go:667-680 | the runs named are exactly those on record that would stop verifying |
| `HubControl.ControlPlane.Activate` | pkg/hubca/rotate.go:645-695 | the new state and refusal are those of the activation step |
| `HubControl.ControlPlane.RetirePrevious` | pkg/hubca/rotate.go:705-760 | the new state and refusal are those of the retirement step, leaves reissued even when members then refuse it |
| `HubControl.ControlPlane.Emergency` | pkg/hubca/rotate.go:818-889 | abandon, retire, stage, activate, reissue and retire together are the emergency step |
| `HubControl.ControlPlane.ReissueLeaves` | pkg/hubca/rotate.go:909-960 | every stored leaf becomes the active CA's, none is added or lost |
| `HubControl.ControlPlane.Rotate` | cmd/hub_ca_cmd.go:107-262 | without confirmation no CA leaves any bundle and no run is named as broken, whatever the flags; a misuse changes nothing |
| `AuditLog.ReachableVerifies` | cmd/hub_audit_cmd.go:10-21 | however appends, seals and cuts interleave, the table verifies across its anchors |
| `AuditLog.RunAllKeeps` | pkg/statedb/audit_anchor.go:204-312 | every interleaving keeps the table the history after the newest cut, each archive a range of it, each anchor's boundary its last hash |
| `AuditLog.TipContinues` | pkg/statedb/audit.go:338-376 | the next row continues the history whether or not the table is empty |
| `AuditLog.SealKeeps` | pkg/auditretention/auditretention.go:255-372 | a seal of a trail only appended to and pruned never finds it broken |
| `AuditLog.OldPrefixIs` | pkg/statedb/audit_anchor.go:410-455 | the planned prefix ends in an eligible row and no later row is eligible |
| `AuditLog.CutIsExact` | pkg/statedb/audit_anchor.go:204-312 | a cut goes through exactly when its boundary is past the newest cut, and removes exactly the rows up to it |
| `AuditLog.EveryRowIsSomewhere` | cmd/hub_audit_cmd.go:83-87 | every row ever appended is in the table or in an archive, and never in both |
| `AuditLog.ArchivesThenTableIff` | cmd/hub_audit_cmd.go:201-211 | archives then table are the history, each row once, exactly when each cut followed on from the one before |
| `AuditLog.CleanCutIff` | pkg/auditretention/auditretention.go:147-246 | a cut follows on exactly when its seal starts at the table's first row |
| `AuditLog.OverlappingPrunes` | pkg/auditretention/auditretention.go:147-246 | two prunes sealed before either cuts archive a row twice |
| `AuditProgress.HistoryIsWhatWasLogged` | pkg/statedb/audit.go:278-376 | every event logged is a row of the history as it was logged, in that order |
| `AuditProgress.SealTakesUpToLast` | pkg/auditretention/auditretention.go:147-220 | a prune seals exactly the rows up to the last one older than the cutoff and, unforced, within the hold; it is refused exactly when there is none |
| `AuditProgress.PruneLeavesTheRest` | pkg/auditretention/auditretention.go:147-246 | sealed and cut with nothing in between it leaves exactly the rows after that one |
| `AuditProgress.CutNeedsItsBoundary` | pkg/statedb/audit_anchor.go:204-312 | of any table in id order, a cut goes through exactly when its boundary row stands as sealed, takes the rows up to it and records how many and what follows |
| `AuditCommands.AuditTrail.AppendAll` | pkg/statedb/audit.go:278-322 | a batch appends its events one after another from the tip |
| `AuditCommands.BatchIsAppends` | pkg/statedb/audit.go:278-322 | so a batch is a history of single appends |
| `AuditCommands.AuditTrail.PlanThrough` | pkg/statedb/audit_anchor.go:410-455 | the plan is the longest eligible prefix |
| `AuditCommands.AuditTrail.SealPrefix` | pkg/auditretention/auditretention.go:255-335 | the archive is the prefix exactly when it is an intact chain from the boundary, else nothing |
| `AuditCommands.AuditTrail.SealJob` | pkg/auditretention/auditretention.go:147-220 | plan, clamp to the hold unless forced, and seal; a dry run changes nothing |
| `AuditCommands.AuditTrail.CutJob` | pkg/statedb/audit_anchor.go:204-312 | delete and anchor are one step, refused if the boundary row is gone or changed |
| `AuditCommands.AuditTrail.Verify` | pkg/statedb/audit.go:624-741 | the walk finds no break exactly when the table is the intact chain its newest anchor pins; it counts gaps and stops at the first bad row |
| `AuditCommands.GapsAdd` | pkg/statedb/audit.go:624-741 | gaps and lost events add up over stretches of the table |
| `AuditCommands.GapOfOne` | pkg/statedb/audit.go:624-741 | one row counts as a gap exactly if it records one, of so many events |
| `AuditCommands.VerifyExit` | cmd/audit_verify.go:42-55 | 2 exactly when a chain is broken, 3 exactly when none is, some has gaps and gaps are not allowed |
| `AuditCommands.RetentionHold` | pkg/auditforward/hold.go:76-132 | the hold is the smallest cursor, none without cursors |
| `AuditCommands.OneDatabase` | cmd/hub_audit_cmd.go:567-577 | true exactly when two requested chains of different source share a database |
| `AuditCheckpoints.CheckpointVouches` | cmd/hub_audit_cmd.go:444-453 | a database that verifies and passes a checkpoint has, up to it, exactly the rows it had then, in the table or the covering archive |
| `AuditCheckpoints.RowsAreThere` | cmd/audit_verify.go:13-16 | a table that verifies and holds the head holds every checkpointed row it reaches back to |
| `AuditCheckpoints.PrunedIff` | pkg/auditcheckpoint/verify.go:336-412 | a checkpoint takes its row for pruned exactly when the table has none of that id and the covering archive is at hand, re-hashes and holds the very row it saw |
| `AuditCheckpoints.TamperingIsReported` | cmd/audit_verify.go:13-16 | a checkpointed row missing from such a table fails verification or the checkpoint, or is in the archive that covers the head, or from before that archive |
| `AuditCheckpoints.SameHashSamePast` | pkg/statedb/audit.go:386-409 | two chains that meet in one hash agree on everything below it |
| `AuditCheckpoints.ArchiveIntactIff` | pkg/auditcheckpoint/verify.go:620-658 | the archive of a cut re-hashes from the boundary before it exactly when the cut followed on |
| `AuditCheckpoints.HonestPassesIff` | pkg/auditcheckpoint/verify.go:336-412 | a checkpoint of an untampered trail passes later exactly when its row is still in the table or its covering cut followed on |
| `AuditCheckpoints.WhyItFails` | pkg/auditcheckpoint/verify.go:336-412 | which finding a checkpoint gives: its anchor gone or another, its row past the head or missing before it, or not provable |
| `AuditDelivery.NothingIsLost` | cmd/hub_audit_cmd.go:97-103 | through sends, crashes, resends, racing leaders, acknowledgements and unforced prunes, every row is in the table or received by every sink |
| `AuditDelivery.AcknowledgedIsReceived` | cmd/hub_audit_forward_cmd.go:29-33 | a cursor is never past what its sink received, nor before the cut |
| `AuditDelivery.ForcedCutLoses` | cmd/hub_audit_cmd.go:142-168 | a row a sink had not received stays reachable exactly when it is past the cut |
| `AuditDelivery.RealignKeeps` | pkg/auditforward/worker.go:642-680 | without a forced prune a realignment only re-reads the cursor |
| `AuditDelivery.ReadBatch` | pkg/auditforward/worker.go:367-396 | the batch read on from a cursor is the rows after it, if the first continues it, else nothing |
| `AuditDelivery.Forwarder.Advance` | pkg/statedb/audit_forward.go:217-262 | a cursor moves exactly when it still stands where the mover read it |
| `AuditDelivery.Forwarder.SendBatch` | pkg/auditforward/worker.go:335-456 | sending a batch, or realigning a cursor the table no longer continues, is the protocol's step |
| `AuditDelivery.Forwarder.Answered` | pkg/auditforward/worker.go:405-424 | so is moving the cursor once the sink has answered |
| `AuditDelivery.ReceivedIsClean` | cmd/hub_audit_forward_cmd.go:47-68 | whatever was resent, and whichever payloads were left out to fit, the check of what a sink received reports nothing, and leaves unverified exactly the rows that first came without their payload |
| `AuditProgress.EverythingArrives` | cmd/hub_audit_cmd.go:97-103 | from any state unforced runs reach, rounds of one leader bring every cursor to the end and every sink every row, and then no sink holds up a prune |
| `AuditProgress.RoundsReachTheEnd` | pkg/auditforward/worker.go:335-456 | after forced prunes too: enough rounds end at the history's end, and the sink has every row from its cursor, or from the cut past it, on |
| `AuditProgress.RoundMoves` | pkg/auditforward/worker.go:335-456 | one round raises the cursor by a batch or what is left, or to the cut, and sends just the rows it moves over; no other sink's changes |
| `AuditProgress.AnswerMoves` | pkg/auditforward/worker.go:405-424 | an answer moves the cursor to what was sent exactly if it stands where the leader read it |
| `AuditProgress.SentIsLast` | pkg/auditforward/worker.go:367-410 | that is the id of the last row the sink was sent |
| `AuditProgress.FailedIsResent` | pkg/auditforward/worker.go:335-456 | a batch whose answer does not come is sent again and the cursor waits |
| `AuditProgress.CrashForgets` | pkg/auditforward/worker.go:139-184 | a leader that crashes loses its own copies and nothing else |
| `AuditStream.PayloadsOnlyVerify` | pkg/auditforward/encode.go:60-120 | leaving payloads out of a stream that checks out reports nothing |
| `AuditStream.JudgeStream` | pkg/auditforward/verify.go:248-300 | the verdict's counts, gaps, forks, bad hashes, broken links and unverified ids are those of the sorted ids |
| `AuditStream.FileStream` | pkg/auditforward/verify.go:177-217 | each record is filed under its id or counted as a repeat |
| `AuditStream.RowsAndRepeats` | pkg/auditforward/verify.go:177-217 | distinct rows and repeats add up to the records received |
| `AuditStream.ForksIff` | pkg/auditforward/verify.go:248-300 | the verdict reports an id as forked exactly when two records of it carry different hashes |
| `AuditStream.BadHashesIff` | pkg/auditforward/verify.go:248-300 | it reports a bad hash, or an unverified id, exactly when a record of the id, the first with its hash, does not come out, or has no payload |
| `AuditStream.BrokenLinksIff` | pkg/auditforward/verify.go:248-300 | it reports a broken link exactly where an id and the one before came with one hash each and the link is not that hash |
| `AuditStream.GapsIff` | pkg/auditforward/verify.go:248-300 | the gaps it reports hold exactly the ids no record carries that lie between two that one does |
| `AuditStream.DeliveredIsClean` | pkg/auditforward/verify.go:17-24 | every at-least-once delivery of an intact chain gets a clean verdict |
| `AuditStream.CleanIff` | pkg/auditforward/verify.go:17-24 | the verdict is clean exactly when some intact chain was delivered |
| `AuditStream.AlteredRepeatIsNotReported` | pkg/auditforward/verify.go:205-211 | a record altered but for its hash is not reported once the genuine one came |
| `GitHubSync.SyncLinksOnce` | cmd/github_cmd.go:144-202 | after a sync each listed issue has a task, and no issue one more than it had unless it had none; other fields of tasks stay |
| `GitHubSync.SyncAscends` | cmd/github_cmd.go:669-693 | new ids and priorities exceed all earlier ones, so distinct ids stay distinct |
| `GitHubSync.ListedIff` | pkg/github/github.go:182-214 | an open issue is listed exactly when fewer than a page of open issues and pull requests are newer |
| `GitHubSync.SyncReachesAllIffCovered` | pkg/github/github.go:182-214 | a sync links every open issue exactly when each one without a task has fewer than a page of newer ones |
| `GitHubSync.OnePageCovers` | pkg/github/github.go:182-214 | no more open issues and pull requests than a page holds is enough |
| `GitHubSync.PageHidesTheOldest` | pkg/github/github.go:182-214 | past a page of open issues the oldest is out of reach |
| `GitHubSync.ListingDistinct` | pkg/github/github.go:182-214 | the listing holds distinct open issues and no pull request |
| `GitHubSync.SyncIdempotent` | cmd/github_cmd.go:85-95 | syncing the same listing again without --force changes nothing |
| `GitHubSync.ForcedRestsIff` | cmd/github_cmd.go:147-160 | a forced sync changes nothing exactly when every listed issue is up to date |
| `GitHubSync.ForcedIdempotentIff` | cmd/github_cmd.go:147-160 | repeating a forced sync changes nothing exactly when the first imported no issue whose body differs from its task's text |
| `GitHubSync.PushKeeps` | cmd/github_cmd.go:287-350 | whatever the API answers, the repository only grows and tasks change only by gaining a link to an issue this push opened |
| `GitHubSync.PushLinksApart` | cmd/github_cmd.go:287-310 | no two tasks are given the same issue |
| `GitHubSync.PushCounts` | cmd/github_cmd.go:287-350 | entries gained are the creations that happened; the tally counts the tasks that gained a link; a lost reply leaves its task without one |
| `GitHubSync.SyncThenPush` | cmd/github_cmd.go:125-350 | sync then push leaves both sides linked exactly when each open issue without a task has fewer than a page of newer ones |
| `GitHubSync.PushThenSync` | cmd/github_cmd.go:125-350 | push then sync does, exactly when before the push each open issue without a task has room on a page for the newer ones the push does not close and for each task without an issue |
| `GitHubSync.PlainRoom` | cmd/github_cmd.go:287-338 | without --done that is all newer ones and the tasks without an issue |
| `GitHubSync.DryRunTellsIff` | cmd/github_cmd.go:287-345 | a dry run counts what the push will do exactly when no open issue is linked to two finished tasks |
| `GitHubSync.ConvergedRests` | cmd/github_cmd.go:125-350 | once linked, any further sync without --force or push without --done changes neither side |
| `GitHubSync.DonePushSettles` | cmd/github_cmd.go:311-338 | repeated pushes with --done change nothing from the third on |
| `GitHubOutcome.PushClosesIff` | cmd/github_cmd.go:287-338 | whatever the API answers, a push closes only issues of completed or skipped tasks, and those only with --done; with every call answered, all of them |
| `GitHubOutcome.PushedIssueSaysTask` | cmd/github_cmd.go:287-310 | a task without an issue gets one exactly when the reply arrives, and it has the task's title, text and the labels |
| `GitHubOutcome.PushTallies` | cmd/github_cmd.go:287-350 | open issues are those there were and those created less those closed, and each task whose link is found is counted once |
| `GitHubOutcome.SyncSaysIssue` | cmd/github_cmd.go:144-202 | a listed issue without a task gets a pending one with its title, text, role and number; a forced sync brings the first task of any other up to it |
| `GitHubOutcome.TaskStays` | cmd/github_cmd.go:144-202 | every other task stays as it was |
| `GitHubOutcome.AddedAreImports` | cmd/github_cmd.go:144-202 | every task added is such a one, of a listed issue that had none |
| `GitHubOutcome.AddedAreNumbered` | cmd/github_cmd.go:669-693 | they take the next ids and priorities, one by one |
| `GitHubOutcome.DryRunTellsImports` | cmd/github_cmd.go:144-202 | a dry run of a sync counts exactly the tasks the sync adds |
| `GitHubOutcome.ListedAsAsked` | pkg/github/github.go:182-214 | a listed issue is open, no pull request and carries each label asked for; and on one page every such issue is listed |
| `GitHubCommands.IndexIsLinked` | cmd/github_cmd.go:125-133 | the index holds exactly the positive issue numbers of the plan, so a forced update finds its task |
| `GitHubCommands.GitHub.ListIssues` | pkg/github/github.go:182-214 | one page, pull requests filtered out, is the listing |
| `GitHubCommands.Project.NextTaskID` | cmd/github_cmd.go:669-680 | one past the largest id |
| `GitHubCommands.Project.NextPriority` | cmd/github_cmd.go:682-693 | one past the largest priority |
| `GitHubCommands.Project.SyncIssue` | cmd/github_cmd.go:144-202 | one turn of the loop does what the specification does and keeps the index in step |
| `GitHubCommands.Project.SyncListed` | cmd/github_cmd.go:135-202 | the loop computes the whole sync; imported, updated and skipped add up to the listing |
| `GitHubCommands.Project.Sync` | cmd/github_cmd.go:96-239 | so does the command; the state file follows the tasks, and a dry run adds no task and saves nothing |
| `GitHubCommands.Project.PushTask` | cmd/github_cmd.go:287-338 | one task's push, for every answer of the API; a dry run of it changes neither side |
| `GitHubCommands.Project.Push` | cmd/github_cmd.go:249-358 | the loop over the tasks computes the whole push, and the state file follows; a dry run changes nothing and counts as specified |
| `GitHubCommands.Project.Link` | cmd/github_cmd.go:505-545 | the first task with the id is linked and nothing else changes; unlinking is linking to 0 |
| `GitHubCommands.Project.LinkAndBack` | cmd/github_cmd.go:554-592 | linking a task and linking it back restores every task |
| `NodeHealth.UncordonRestores` | cmd/executor_sched_cmd.go:336-339 | after any mix of probes and commands an uncordon gives the state the probes alone would |
| `NodeHealth.UncordonRestoresIff` | pkg/executor/health.go:280-300 | exactly when the record starts with the state its failure count justifies |
| `NodeHealth.ProbesKeepTheHold` | pkg/executor/health.go:208-256 | no number of probes moves a held node |
| `NodeHealth.FailuresDecide` | pkg/executor/health.go:163-256 | after one good probe and n bad ones a node nobody holds is ready, degraded from the first threshold on, and unreachable from the second on |
| `NodeHealth.ProbeMoves` | pkg/executor/health.go:208-256 | one good probe makes it ready again, and the time of change is when the state took another value |
| `NodeHealth.CommandsDo` | pkg/executor/health.go:262-316 | a cordon, drain or uncordon sets the state of its node alone and keeps its failures |
| `NodeHealth.SessionsDo` | pkg/ui/executor_supervisor.go:156-192 | a bound run starts at once, a choice of a ready or degraded node when it is recorded, and each session ends for good |
| `NodeHealth.HeldOnlyShrinksIff` | cmd/executor_sched_cmd.go:14-18 | until an uncordon, a held node's work in flight only shrinks exactly when no project is bound to it, no choice of it is pending, no probe under way read it before the hold and no read of its record fails |
| `NodeHealth.CordonedNodeTakesBoundWork` | pkg/ui/executor.go:857-878 | a cordoned node starts the run of a project bound to it |
| `NodeHealth.RunsStaySane` | pkg/ui/executor_supervisor.go:156-192 | every run hands session ids out once and probes read normalized records |
| `NodeHealth.HoldIsSafeIff` | pkg/executor/supervisor.go:583-618 | a hold outlives everything but an uncordon exactly when no probe under way read the node before it and no read of its record fails |
| `NodeHealth.BlindProbeLosesTheHold` | pkg/executor/supervisor.go:918-931 | a probe whose read fails undoes a hold, whatever its answer |
| `NodeHealth.BlindChoiceGrows` | pkg/executor/supervisor.go:918-931 | a scheduler whose read fails chooses a held node |
| `NodeHealth.LostCordon` | pkg/executor/supervisor.go:583-618 | a cordon during a probe is undone by its answer, and the scheduler chooses the node again |
| `NodeHealth.HeldStandsIff` | pkg/executor/supervisor.go:583-618 | nobody but an operator changes what a held node is exactly when every probe under way read its state as it is and no read fails |
| `NodeHealth.HeldAsLastAskedIff` | cmd/executor_sched_cmd.go:440-447 | until an uncordon a held node is all along what the last cordon or drain made it exactly when, by the steps alone, no probe of it ends with another state read |
| `NodeHealth.DrainedStaysIdleIff` | cmd/executor_sched_cmd.go:440-447 | a node drained to nothing stays idle until an uncordon under the same condition, and under no weaker one |
| `NodeHealth.WaitForDrain` | pkg/executor/supervisor.go:884-916 | the wait succeeds exactly at a zero count, and says why it stopped otherwise |
| `NodeHealth.CollectNodes` | cmd/executor_sched_cmd.go:269-313 | one row for each registered or stored id, ascending, the registry's row for a registered one |
| `NodeHealth.ShownIs` | cmd/executor_sched_cmd.go:269-313 | a node the registry does not have is shown as the first row stored for it |
| `ChatStream.Stream.OnToken` | cmd/chat.go:179-191 | a token prints and buffers what its characters one by one do |
| `ChatStream.Stream.Answer` | cmd/chat.go:169-191 | an answer in any tokens prints what its text prints in one |
| `ChatStream.FilterActionLines` | cmd/chat.go:321-333 | the filter's loops compute the filtered text |
| `ChatStream.StreamedIsFiltered` | cmd/chat.go:276-290 | what is streamed, without trailing blank lines, is the filtered text |
| `ChatStream.NoActionIsPrinted` | cmd/chat.go:169-191 | no action line is ever printed |
| `ChatStream.FilterIdempotent` | cmd/chat.go:321-333 | filtering twice is filtering once |
| `ChatStream.ActionIs` | cmd/chat.go:321-333 | an action line is one whose first characters but white space are the marker |
| `ChatStream.ShownAppends` | cmd/chat.go:321-333 | the lines shown are the others, in their order |
| `ChatStream.DropBlankIs` | cmd/chat.go:321-333 | of these exactly the trailing ones of nothing but white space are left out |
| `FlagList.SplitCommaFlags` | cmd/egress_cmd.go:663-675 | the loops compute the flattened list |
| `FlagList.RepeatedIsJoined` | cmd/egress_cmd.go:663-675 | repeating a flag and joining its values with commas mean the same |
| `FlagList.FlattenedIff` | cmd/egress_cmd.go:663-675 | flattening is idempotent, and leaves alone exactly the lists of plain values |
| `ShellQuote.QuotedReadsBack` | cmd/env_cmd.go:173-176 | a quoted value reads as exactly one word, the value |
| `ShellQuote.ExportReadsBackIff` | cmd/env_cmd.go:149-171 | for every key and value, a printed line reads as export and the whole assignment exactly when each character of the key means itself where it stands |
| `ShellQuote.QuotedIsInjective` | cmd/env_cmd.go:173-176 | different values are quoted differently |
| `ShellQuote.KeyAtMost` | cmd/env_cmd.go:149-171 | any other character of a key, met outside quotes, is lost |
| `Checkpoints.SanitizedIff` | cmd/checkpoint.go:220-224 | sanitizing is idempotent and leaves alone exactly the safe names |
| `Checkpoints.SanitizedIsSafe` | cmd/checkpoint.go:220-224 | a sanitized name holds no separator, space or pair of dots |
| `Checkpoints.SanitizedChars` | cmd/checkpoint.go:220-224 | without a pair of dots a separator or space becomes a dash and every other character stays |
| `Checkpoints.DotsAreDropped` | cmd/checkpoint.go:220-224 | the first pair of dots is dropped and what follows sanitized on its own |
| `Checkpoints.Workdir.Save` | cmd/checkpoint.go:45-73 | files the state under the sanitized or time-stamped name |
| `Checkpoints.Workdir.Restore` | cmd/checkpoint.go:81-112 | reads the checkpoint, backs the state up, then overwrites it |
| `Checkpoints.Workdir.List` | cmd/checkpoint.go:119-169 | every checkpoint once, newest first |
| `Checkpoints.StoreKeepsNamesSafe` | cmd/checkpoint.go:45-112 | every command keeps the stored names safe |
| `Checkpoints.ListedRestores` | cmd/checkpoint.go:133-143 | a listed name restores and deletes the checkpoint it is listed for |
| `Checkpoints.SaveThenRestore` | cmd/checkpoint.go:54-67 | whatever becomes of the state, restoring brings back what was saved |
| `Checkpoints.LaterSaveKeepsIff` | cmd/checkpoint.go:45-73 | a later save leaves a checkpoint as saved exactly when the two names do not sanitize to one, or nothing had changed |
| `Checkpoints.NamesCollide` | cmd/checkpoint.go:220-224 | a slash and a space come out the same |
| `Checkpoints.BackupUndoesIff` | cmd/checkpoint.go:81-102 | restoring the automatic backup undoes a restore exactly when the state could be read |
| `Checkpoints.OthersStay` | cmd/checkpoint.go:45-183 | a delete takes one name out, a save and a restore write one, and every other checkpoint stays as it was |
| `CostReport.FilterSince` | cmd/cost_report.go:60-68 | the in-place filter leaves the entries since the date, in order |
| `CostReport.Group` | cmd/cost_report.go:342-363 | the loop sums each identity met |
| `CostReport.AggregateByIdentity` | cmd/cost_report.go:342-378 | one row for each identity with its sums, in a strict order |
| `CostReport.GroupingConserves` | cmd/cost_report.go:342-378 | grouping conserves tokens, spend and runs |
| `CostReport.ReportIsOfTheBag` | cmd/cost_report.go:366-377 | the report depends only on which entries there are |
| `CostReport.EntryCounts` | cmd/cost_report.go:342-363 | one more entry adds its tokens, spend and run to its identity's row, or to the unattributed one, and to no other |
| `CostReport.BiggestFirst` | cmd/cost_report.go:366-377 | the bigger spender comes first and, of two that spent the same, the one whose name does |
| `CostReport.SinceIs` | cmd/cost_report.go:60-68 | the date filter keeps exactly the entries not before the date, in their order |
| `ConfigSet.Settings.Load` | pkg/config/config.go:3609-3639 | the file over the defaults, repaired, with the environment over it, and what that covers of credentials |
| `ConfigSet.Settings.Save` | pkg/config/config.go:4243-4307 | the configuration with each credential of the environment as the file held it |
| `ConfigSet.Settings.Assign` | cmd/config_cmd.go:83-117 | load, assign, check, and save only then: each way to be refused, and the file after it |
| `ConfigSet.CleanIff` | pkg/config/config.go:3664-3935 | loading makes nothing else of a file exactly when it holds every key with a default, each key the clamp can repair is sound, the gate is written as stored and both pairs agree |
| `ConfigSet.ClampIsClean` | pkg/config/config.go:3664-3935 | what loading makes of any file, loading it again leaves alone |
| `ConfigSet.SetChangesOnlyItsKeyIff` | cmd/config_cmd.go:83-117 | an accepted set changes its own key and nothing else exactly when no other key with a default is missing from the file, loading repairs no other key, the environment says what the file holds and the value is not one of its credentials |
| `ConfigSet.DefaultsAreWritten` | pkg/config/config.go:3474-3493 | a key with a default that the file does not hold is written by any other key's set |
| `ConfigSet.LimitIsRepairedOnTheWay` | pkg/config/config.go:3755-3770 | a file with 10 connections and 20 for one address: setting max_parallel is accepted and drops the limit of 20 |
| `ConfigSet.ProviderIsWritten` | pkg/config/config.go:4202-4217 | setting another key writes the environment's provider to the file |
| `ConfigSet.CredentialsStayOut` | pkg/config/config.go:4252-4292 | through any sets of other keys, a credential the environment supplies never reaches the file |
| `ConfigSet.AcceptedIsClean` | pkg/config/config.go:4061-4192 | what an accepted set saves passes the whole check and is left alone by loading, whatever the file was |
| `ConfigSet.SetsKeepTheFile` | pkg/config/config.go:4061-4192 | any sequence of sets keeps a file that passes the check passing it, and one loading leaves alone so |
| `ConfigSet.SetsKeepTheBands` | cmd/config_cmd.go:136-730 | any sequence of sets keeps each number of a file within its key's band |
| `ConfigSet.LoadedFileTakes` | cmd/config_cmd.go:97-107 | whatever is on file, a sound value of a key outside the pairs passes the check, if the keys loading does not repair are sound |
| `ConfigText.SetLeavesWhatItReads` | cmd/config_cmd.go:83-117 | a set leaves on file what was read of its text, but for a credential the environment supplies, and is refused for the text exactly when nothing is |
| `ConfigText.SwitchIsOnFile` | cmd/config_cmd.go:320-328 | an accepted set of a switch leaves it on for true, 1, yes and on, off for false, 0, no and off, cleared where an empty text does so; anything else is refused |
| `ConfigText.SwitchReads` | cmd/config_cmd.go:197-669 | the words of every switch, in any case, and which switches take white space or an empty text |
| `ConfigText.FreeReads` | cmd/config_cmd.go:145-331 | free text is taken as it stands |
| `ConfigText.TrimmedReads` | cmd/config_cmd.go:212-380 | the four trimmed keys take their text without white space around it |
| `ConfigText.WordReads` | cmd/config_cmd.go:138-545 | the keys that take one of a few words take those alone, as they stand |
| `ConfigText.GateReads` | cmd/config_cmd.go:334-345 | a gate goes by its names in any case and is stored under one |
| `ConfigText.RoleReads` | cmd/config_cmd.go:548-554 | a default role is one of the roles, in any case |
| `ConfigText.ClaimReads` | cmd/config_cmd.go:671-676 | a matching claim goes by its names, an empty text meaning email |
| `ConfigText.ListReads` | cmd/config_cmd.go:277-309 | a list is exactly the trimmed, non-empty parts between commas |
| `ConfigText.ListReadsBack` | cmd/config_cmd.go:277-309 | plain values joined by commas are read back, in their order |
| `ConfigText.NumberReads` | cmd/config_cmd.go:229-700 | a number is taken exactly if it can be read and is within its key's limits, key by key; an empty text sets three keys back |
| `ConfigText.ValidatesIff` | pkg/config/config.go:4061-4192 | what passes the whole check: every number within limits or 0, texts that can be read, both pairs in agreement |
| `ConfigText.LoadRepairsNumber` | pkg/config/config.go:3664-3935 | loading keeps a number within its limits and puts any other back to what means its default |
| `ConfigText.LoadRepairsPairs` | pkg/config/config.go:3755-3770 | a limit for one address above the whole goes back to its default, a budget for one device is lowered to the whole |
| `ConfigText.LoadRepairsTexts` | pkg/config/config.go:3664-3935 | a text that cannot be read is dropped where loading looks at it |
| `ConfigText.LoadRepairsMode` | pkg/config/config.go:3664-3935 | a gate is written as it is stored, and one nobody knows dropped |
| `ConfigText.LoadedDefaults` | pkg/config/config.go:3474-3493 | the defaults of the five keys that have one |
| `ConfigText.EnvironmentSupplies` | pkg/config/config.go:4202-4217 | which variable supplies which key |
| `ConfigText.EnvironmentSuppliesSecrets` | pkg/config/config.go:4202-4240 | and which credential |
| `ConfigOrder.DefaultsAreSettled` | pkg/config/config.go:4375-4381 | the file written for a new project passes the check and is left alone by loading |
| `ConfigOrder.SetsCommuteIff` | cmd/config_cmd.go:83-117 | two sets can be made in either order exactly when what the check says of both is what it says of each, and the environment overlays neither with another value |
| `ConfigOrder.UncoupledCommuteIff` | pkg/config/config.go:4061-4192 | outside the two pairs of keys only the environment stands in the way |
| `ConfigOrder.LimitsCommuteIff` | pkg/config/config.go:4168-4171 | the limits on connections: the condition on the two old and two new numbers |
| `ConfigOrder.BudgetsCommuteIff` | pkg/config/remoteexecutors.go:61-118 | the write-back budgets: the same, of the amounts in effect |
| `ConfigOrder.LimitsDoNotCommute` | pkg/config/config.go:4168-4171 | raising both limits past the old ones works in one order only |
| `ConfigOrder.BudgetsDoNotCommute` | pkg/config/remoteexecutors.go:61-77 | from the defaults, 2 GiB for a device and 4 GiB in all are taken in one order only |

## Left out

- HubRotation.ReachableIsSafe: runs without a run id, members judged dead while alive, X.509 name constraints and the 24-hour
  bound on an emergency's cut are not modelled; a member's first monitor, its refresher and its first report are one step.
- HubRotation.ActivationNamesAllIff: a step reads members and runs and writes at one moment, so a member of an older build starting between the two is not modelled; a run put on record between them counts as one under way. A dispatch is given its CAs for every path at one moment.
- HubProgress.RotationFinishesIff: only the members' refreshes come between the operator's steps; what else may happen is for HubRotation, which says what stays safe.
- HubInvariant.SettleKeeps: a refresh of the CAs and the settling that follows it are one step, and database failures between them are not modelled.
- HubInvariant.EmergencyKeeps: the emergency's transactions (abandon, retire, stage, activate, reissue, retire) are one step, so a member refreshing, or one of an older build starting, between two of them is not modelled; no refresh cuts before the last of them.
- HubControl.ControlPlane.Emergency: its parts are not interleaved with members, as for HubInvariant.EmergencyKeeps.
- AuditLog.ReachableVerifies: a plan and its seal are one step; rows that vanish between the two make the source refuse the seal.
- AuditLog.OldPrefixIs: times are numbers; the source compares them as RFC 3339 text, which drops trailing zeros of a fraction, so two rows of one second can compare the other way.
- AuditLog.SealKeeps: planning and sealing are one step, as for AuditLog.ReachableVerifies.
- AuditLog.TipContinues: the fields a row hash joins with tabs are one value here, so texts holding tabs cannot collide.
- AuditCommands.AuditTrail.Verify: the source skips the gap check after a row with id 0, which no append writes; the model checks it.
- AuditCheckpoints.CheckpointVouches: seals on checkpoint records, vouched anchors whose archive is gone, and restore records are not modelled; a row or head newer than the checkpoint, which the source reports as a restore, is reported here as rewritten or truncated.
- AuditDelivery.NothingIsLost: the sinks are configured before the first row; a sink added later starts where its configuration says.
- AuditProgress.EverythingArrives: no other leader sends within a round and nothing is logged meanwhile; waiting after a failure is not modelled.
- AuditDelivery.Forwarder.SendBatch: forwarding a chain that is broken in place, with the break recorded, and realigning when the row at a cursor was rewritten are left out: in the protocol nobody rewrites rows.
- AuditStream.CleanIff: record ids start at 1; the verifier judges the link of id 1 against genesis even after a row with id 0.
- GitHubSync.SyncReachesAllIffCovered: issue numbers are those GitHub hands out in order; filters apply as GitHub's label filter does.
- GitHubCommands.Project.Push: comments posted on issues it closes are not modelled.
- GitHubCommands.Project.Sync: saving the state file does not fail here; task texts and roles are functions given to the model.
- NodeHealth.HeldOnlyShrinksIff: whether a bound dispatch is refused for reasons other than health (host policy, capabilities) and failing over the sessions of an unreachable node are not modelled.
- NodeHealth.UncordonRestores: an operator's command reads the record and writes it at one moment, and its read does not fail.
- NodeHealth.WaitForDrain: time is the index of a poll.
- ChatStream.Stream.OnToken: text is characters; a multi-byte character cut between two tokens is not modelled.
- ShellQuote.ExportReadsBackIff: a key that makes the word a pattern (`*`, `?`, `[`) counts as not read back, since what it reads as depends on the files there; whether the shell takes the first as a variable's name is not modelled.
- Checkpoints.Workdir.Restore: file writes do not fail, and only checkpoint files are in the directory.
- CostReport.GroupingConserves: money is an exact number; the same loops group by task, provider and day and are not repeated.
- ConfigSet.Settings.Assign: the container section's keys, each checked in a copy by the driver's own rules, are among the fields no key sets, as is step_timeout with its default; what loading and writing make of those and their check are functions given to the model, and so is reading numbers, versions, durations and paths.
- ConfigSet.SetsKeepTheBands: numbers are real: NaN, which the source's parser takes for the fractional keys, is not one.
- ConfigSet.Settings.Load: an empty value and an absent one are one to the source, which writes or drops it by field, and are told apart here; a file that does not parse, and the copy of a missing file in the database, are not modelled; letters are lowered as far as they have an ASCII lower case.
- Byte counts, relative ages, padded and masked text, and the other formatting of these commands are not modelled.
- Provider calls, terminal output, tables, colours, SQLite, HTTP, TLS and key management are not modelled.
