# A verified model of PiCache's state machines

PiCache is a DNS resolver, filter and download cache for a home network. This
project models the parts of it that are protocols, streaming transformations and
accounting loops, and proves what they are for: that an upgrade or a restore
never loses a database, that a document is copied without exactly the members to
be dropped, that counters equal what they count, that a few fields stand for an
unbounded history. Code that changes things step by step is a method (of a class
where the program has an object), proved against a function of its input or of
the history; what the program promises is then proved about that function.

One `.dfy` file holds one module:

- `Restore`: a staged restore and its rollback, file by file, over all runs in
  which a start may die between any two steps.
- `UpgradeCopies`: the copies made before an upgrade, whose name says which
  version opens them, and their pruning, over all runs of starts of different
  versions.
- `Json`, `Decoder`, `RewriteJson`, `DropMembers`: JSON token streams (objects as
  in section 4 of RFC 8259), the decoder's grammar stack, the scrubber's rewriting
  loop and the removal of members by pointer (sections 3 and 4 of RFC 6901).
- `ReplaceLabel`: the replacement of host names as whole labels.
- `Salvage`: the copy of a damaged table over an adversarial read oracle.
- `Schedule`, `Retention`: due times of the backup scheduler, its stamps, its
  directory listing and retention.
- `ListenerRules`, `ListenerStart`, `ListenerReason`: the check of saved listeners, the
  binding, fallback and write-back of a start over three files, and when saved
  listeners can make a start exit.
- `WebLimit`: the connection limiter of the web UI.
- `HealthWatch`, `DropTracker`, `ProfileLinks`: monitors that summarise a history.
- `LocalCa`: the name constraints of the local CA (section 4.2.1.10 of RFC 5280).
- `Devices`, `Sorting`: statistics grouped by device, over a stable sort.

Time is an integer. What files, sockets, SQLite and clocks answer is a parameter of
the methods (a World or Answers value), so that each theorem holds for every
answer that the stated conditions allow. A crash is a prefix of the list of states
that a start goes through; the methods that do the steps are proved to go through
exactly that list.

## Where the code and its comments differ

- The comment of dropMembers says that trailing data are errors. The decoder reads a
  stream of values, so several values one after the other are copied
  (`DropMembers.TrailingValues`).
- A partial restore removes the staged file after the swap. A start that dies between
  the two leaves a staged file that the next start merges again, and the backup
  of the replaced database is then replaced by the merged one
  (`Restore.PartialTwice`); it happens exactly then (`Restore.AgainExactly`,
  `Restore.AgainLoses`). A full
  restore consumes the staged file by the swap itself and has no such point.
- A version from 1.0.0 on records itself after its app migration. A start that dies
  between the two, when that migration goes beyond the previous version's, leaves a
  database whose next copy is named after a version that does not open it
  (`UpgradeCopies.DeathMisleads`, exact in `UpgradeCopies.HalfExactly`). It cannot
  happen while all versions have the same app migrations, as they have so far.
- The comment of tick says that a clock set back makes nothing due again. It does, once
  for each time the clock passes a scheduled time again
  (`Schedule.DueOncePerPassing`, `Schedule.DueAgainAfterSetBack`).
- The comment of bindListeners says that a value from the listeners files is never a reason
  to exit. A set that the check accepts can be one, in two ways
  (`ListenerStart.FilesCanBeAReason`, `ListenerStart.WebOffCanBeAReason`);
  `ListenerReason.FilesAreReasonExactly` says for which sets that can happen.
- A partial restore that fails while it is swapped in is reported as refused, but
  picache.db need not be as it was: when the staged file cannot be removed the merged
  database stays in place and is not rolled back (`Restore.RefusedAfterSwap`); when
  the last rename and the rename back both fail picache.db is missing and the start
  ends at the build (`Restore.RefusedAndMissing`). `Restore.RefusedExactly` says
  when picache.db is as before; in all other cases picache.db.before-restore holds it.
- Two backups can share a stamp after a clock set back by a minute or more, and the later
  one then replaces the earlier (`Schedule.StampShared`). `Schedule.SharedExactly` says
  for which two runs that happens; not every such clock does it
  (`Schedule.LongWayBackUnshared`).
- The comment of scheduledOn says that a time of day which a clock change leaves out is moved
  forward. time.Date promises only one of the two offsets. A time that is moved back over
  midnight, into the date before, can be seen by no tick (`Schedule.NeverAttempted`, exact in
  `Schedule.PassedExactly` and `Schedule.LastDue`); one that is moved forward over midnight
  is missed by nextDue (`Schedule.NextDueMisses`, exact in `Schedule.NextDue`).
- replaceLabel slices out of bounds for a name that overlaps itself at a label
  boundary, such as nas.nas (`ReplaceLabel.SafeNames`, an if and only if).
- copyRows adds 1000 to a rowid without looking at the end of int64. A window that starts
  within 1000 of it leads back to before the first row, so that rows are inserted
  again (`Salvage.InsertedTwice`), or is probed without an end (`Salvage.NeverEnds`).
  `Salvage.KnownExactly` and `Salvage.UnknownExactly` say for which tables that can
  happen.

## Model

| member | source | states |
|---|---|---|
| Restore.App.Run | internal/app/app.go:203-223 | A start applies the staged file, builds, and after a failed build of a restored database rolls back and builds again: it goes through exactly the states of StartTrail, each of which is a place where it may die, and serves exactly when PiCache is up at its end |
| Restore.App.ApplyStagedRestore | internal/app/backup.go:390-438 | Goes through exactly the states of ApplyTrail, and says whether the restore was applied and whether the start must stop |
| Restore.App.SwapFull | internal/app/backup.go:422-434 | Old backup removed, database moved to it, log files removed, staged file moved in, one state each; succeeds unless a rename fails |
| Restore.App.SwapMerged | internal/app/restore.go:633-646 | The swap of a partial restore: the same steps with the merged copy, renamed back when the last rename fails, then the removal of the staged file, whose failure is an error too |
| Restore.App.RollbackRestore | internal/app/backup.go:526-540 | The database set aside, its log removed, the backup renamed back, one state each |
| Restore.App.Build | internal/app/dberror.go:46-73 | A missing or empty database of an existing installation is refused and nothing changes; any other is opened, leaves what the build leaves and no other file changed, and succeeds when the build does |
| Restore.NothingLost | internal/app/backup.go:390-472 | Over every run of dying and completing starts, writes and staged files, the database that the latest accepted restore replaces is in picache.db or in picache.db.before-restore, while no start finds a staged file that was put in place before |
| Restore.NothingLostUnlessDies | internal/app/backup.go:390-472 | The same in terms of events: as long as no partial start dies between its swap and the removal of the staged file |
| Restore.AgainExactly | internal/app/restore.go:633-646 | An event leads to a staged file that was put in place before exactly when a partial start dies at that point and the merge changed something |
| Restore.RefusedAfterSwap | internal/app/restore.go:642-646 | When the staged file cannot be removed the merged database is in picache.db and the replaced one in the backup file, but the restore counts as refused and the start goes on |
| Restore.RefusedExactly | internal/app/restore.go:633-646 | For every restore, partial or full, that was accepted and then fails: picache.db reads as before exactly when it was not renamed or was renamed back, or a merge in place changed nothing; otherwise the backup file holds the replaced database |
| Restore.RefusedAndMissing | internal/app/restore.go:642-645 | A concrete accepted restore that counts as refused and leaves no picache.db, so that the build is refused; the backup file holds it |
| Restore.FullRestoresLoseNothing | internal/app/backup.go:422-434 | Runs of full restores never have such a file, so they lose nothing without any condition |
| Restore.AgainLoses | internal/app/restore.go:633-646 | Exactly when a start accepts a staged file that was put in place before, it passes through a state in which neither file holds the replaced database |
| Restore.PartialDies | internal/app/restore.go:642-646 | A partial restore that dies before it removes the staged file leaves such a file, unless the merge changed nothing |
| Restore.PartialTwice | internal/app/restore.go:633-646 | Two concrete starts after which neither file holds the replaced database |
| Restore.MissingMustBeRefused | internal/app/backup.go:445-448 | Without the refusal of a missing picache.db the first step of the swap loses the only copy; with it every step keeps the backup file |
| Restore.RefusedChangesNothing | internal/app/backup.go:408-421 | A refused staged file leaves the content of picache.db and the backup as they were at every step and is kept under its own name |
| Restore.RestoredSwaps | internal/app/backup.go:422-438 | After an applied restore picache.db holds the restored database, the backup file the content before, and nothing is staged |
| Restore.RollbackPutsBack | internal/app/app.go:207-217 | After a restore that was put in place and a first build that fails, the state before the last one reads as before the start, whatever the failed build wrote, and the start ends with what the second build leaves |
| Restore.FirstBuildEnds | internal/app/app.go:207-217 | A first build that succeeds, or fails without a restored database, is the end of the start |
| Restore.FailedFullStops | internal/app/backup.go:422-434 | A full restore that is accepted and then fails ends the start before any build |
| Restore.RollbackSetsAside | internal/app/backup.go:526-540 | The rollback keeps the database that could not be started under another name, without log files, and the backup file is renamed back or kept |
| Restore.RollbackWithout | internal/app/backup.go:526-540 | When it cannot be kept the backup file is still put back; without a backup file the rollback does nothing |
| UpgradeCopies.EveryChangeHasItsCopy | internal/app/backup.go:578-615 | Over every run: after a start of a release on a database that another version recorded, wherever it died, if the schema changed then a readable copy with exactly the schema before is there at the end of the run |
| UpgradeCopies.CopyBeforeChange | internal/app/backup.go:578-615 | In one start of a release on a database that had a schema and another version recorded, every state with a changed schema has a readable copy with the schema before |
| UpgradeCopies.CopiesExactly | internal/app/backup.go:593-684 | When the copy can be written: one is made exactly for a release on a database with a schema that another version recorded, unless the release owns the schema and a readable copy of it has its name; it then comes before any change, else no file changes at any step |
| UpgradeCopies.StartEnds | internal/app/backup.go:578-615 | When the copy can be written: a start on a schema with a component newer than its own changes nothing, any other ends with the schema of its migrations, its version recorded, and the record of the schema once they all succeeded |
| UpgradeCopies.FreshCopy | internal/app/backup.go:637-646 | A copy that is made equals the database in all of its content, and a copy with its schema is there at every step of the pruning |
| UpgradeCopies.CopiesOpenByName | internal/app/backup.go:744-787 | Over every run each copy is named after the owner of its database, and that version opens it exactly when the last version recorded in it is from 1.0.0 on, or opens it, or the record of the schema is current |
| UpgradeCopies.OwnerOpens | internal/app/backup.go:744-760 | For every database: the owner opens it exactly when the record is current or the recorded version opens it |
| UpgradeCopies.HalfExactly | internal/app/backup.go:602-614 | An event leaves a database that the version from 1.0.0 on recorded in it does not open exactly when a start dies between an app migration beyond that version and the record of its own |
| UpgradeCopies.AppStaysNeverBetween | internal/app/backup.go:602-614 | With the same app migrations in all versions no start dies that way |
| UpgradeCopies.OldVersionMisleads | internal/app/backup.go:732-760 | A version before 1.0.0 started in the middle of an upgrade: the next copy is named after it and it does not open the copy |
| UpgradeCopies.DeathMisleads | internal/app/backup.go:602-614 | A concrete such death, after which the next copy has the wrong name |
| UpgradeCopies.PrunedMeans | internal/app/backup.go:824-855 | In times alone: a copy stays exactly when fewer than three are newer, or its schema can be read and no newer copy has it |
| UpgradeCopies.NewestStays | internal/app/backup.go:830-855 | Whatever copies there are, pruning keeps for every readable schema a copy that is at least as new as each other copy of it |
| UpgradeCopies.RunKeepsCopies | internal/app/backup.go:830-855 | Once a copy of a schema exists, one exists at the end of every run, so no pruning ever removes the last one |
| UpgradeCopies.Installation.PreUpgradeBackup | internal/app/backup.go:578-615 | Refuses a newer schema, copies, migrates the app schema and records the version, in that order and state by state; nothing changes when it fails; when a release succeeds on a database of another version a readable copy has the schema before |
| UpgradeCopies.Installation.CopyBeforeUpgrade | internal/app/backup.go:627-648 | No copy when the starting version owns the schema and has one; otherwise a copy under the owner's name, then the pruning; fails when the copy cannot be written or its name is taken |
| UpgradeCopies.Installation.PruneBackups | internal/app/backup.go:830-855 | Goes copy by copy from the newest to the oldest and leaves exactly the newest three and the first copy of every readable schema |
| UpgradeCopies.Installation.CopyOfSchema | internal/app/backup.go:657-684 | Finds a copy named after the version with the database's schema whenever there is one |
| UpgradeCopies.CopyVersion | internal/app/backup.go:744-760 | The version the copy is named after and the version that recorded the current schema |
| UpgradeCopies.SomeNewer | internal/app/backup.go:791-811 | The loop over the components refuses exactly when one that the binary knows is newer |
| UpgradeCopies.Installation.Start | internal/app/app.go:319-583 | A whole start, with the later migrations and the record of the schema last, goes through exactly the states of StartTrail |
| RewriteJson.Rewrite | internal/app/bundlescrub.go:749-815 | For every token stream and every leaf function the output is the token stream of the recursive tree map of the parsed documents, and an error exactly when the input is no sequence of complete values |
| RewriteJson.LeavesAreAnswers | internal/app/bundlescrub.go:803-813 | The leaves of the result are the function's answers in document order under their paths; one that is not kept is left out of an array and is null anywhere else |
| RewriteJson.PathsAreNames | internal/app/bundlescrub.go:749-772 | A leaf is passed with a path exactly when it joins the non-empty member names on some way to that leaf |
| RewriteJson.SplitJoin | internal/app/bundlescrub.go:763-772 | The parts of a path between its dots are the names it was joined from, if these hold no dots |
| RewriteJson.JoinInjective | internal/app/bundlescrub.go:763-772 | Different lists of such names have different paths |
| RewriteJson.EveryLeafOnce | internal/app/bundlescrub.go:749-757 | Each leaf is passed once, in document order, with its dotted member path; array elements carry their array's path and empty names vanish |
| RewriteJson.KeepingChangesNothing | internal/app/bundlescrub.go:749-757 | A function that keeps what it is given leaves every document as it is |
| RewriteJson.MapWellFormed | internal/app/bundlescrub.go:758-815 | The mapped document is well formed, so the encoder takes it |
| RewriteJson.CurrentPath | internal/app/bundlescrub.go:763-772 | The path joined from the frames is the non-empty member names in order |
| Decoder.StepAgrees | internal/app/bundlescrub.go:773-789 | The decoder's grammar stack refuses a token exactly when the document tree cannot take it, and keeps standing for the tree |
| Decoder.ParseIsInverse | internal/app/bundlescrub.go:773-789 | A token stream parses to documents exactly when they are well formed and it is their stream |
| Decoder.TokenReader.SkipValue | cmd/picache/configcmd.go:225-233 | Reads over exactly one complete value |
| DropMembers.Drop | cmd/picache/configcmd.go:211-242 | The output is the stream of the documents without the members at the pointers, at any depth; an error exactly for an input that does not parse or is empty |
| DropMembers.WithoutFinds | cmd/picache/configcmd.go:211-242 | By the evaluation of pointers: a path finds in the result what is left of what it found before, and nothing exactly when it passes through a dropped member |
| DropMembers.GetMeans | cmd/picache/configcmd.go:211-242 | A path leads through elements by place and through the first member of a name, and nowhere else |
| DropMembers.PointerReads | cmd/picache/configcmd.go:211-242 | Reading a pointer by the rules of section 4 of RFC 6901 gives back the names it was made of, whatever they contain |
| DropMembers.PointerInjective | cmd/picache/configcmd.go:211-242 | Two lists of names never have the same pointer |
| DropMembers.CutMeans | cmd/picache/configcmd.go:211-242 | A path passes through a dropped member exactly when a part of it ends with a member whose pointer is among those to be dropped |
| DropMembers.DecimalReads | cmd/picache/configcmd.go:211-242 | The place of an array element in a pointer is its decimal number without a zero in front |
| DropMembers.SettingsView | cmd/picache/configcmd.go:83-107 | The whole document or one section without the read-only members; a missing section is an error |
| DropMembers.StripSection | cmd/picache/configcmd.go:137-145 | The pointers below a section, relative to it, in order |
| DropMembers.SectionOfView | cmd/picache/configcmd.go:88-107 | The view of a section equals that section of the whole view exactly when no read-only pointer names the section itself |
| DropMembers.TrailingValues | cmd/picache/configcmd.go:211-242 | Two values one after the other parse as two and are both copied |
| ReplaceLabel.Replace | internal/app/bundlescrub.go:694-724 | The result is the text with exactly the places of the name replaced and every other byte unchanged, the counter rises by their number, and a slice is out of bounds exactly when two places overlap |
| ReplaceLabel.PlacesAreAll | internal/app/bundlescrub.go:694-724 | The places are exactly where the name stands as whole labels, whatever its case |
| ReplaceLabel.StandsMeans | internal/app/bundlescrub.go:694-724 | A place is one where the bytes are those of the name but for their case and no label byte is before or after |
| ReplaceLabel.PlacesAscend | internal/app/bundlescrub.go:694-724 | They are listed in order, each once |
| ReplaceLabel.SafeNames | internal/app/bundlescrub.go:709-716 | No text makes it fault exactly when the name does not overlap itself at a label boundary |
| ReplaceLabel.TwiceTheSameLabel | internal/app/bundlescrub.go:709-716 | The name nas.nas in nas.nas.nas is a concrete fault |
| ReplaceLabel.AsciiLower | internal/app/bundlescrub.go:737-746 | Lowers the ASCII letters byte by byte, so the offsets are those of the text |
| ReplaceLabel.LowerBytes | internal/app/bundlescrub.go:737-746 | Each upper-case ASCII letter becomes the lower-case one, any other byte stays |
| ReplaceLabel.LabelBytes | internal/app/bundlescrub.go:689-692 | The label bytes are the ASCII letters and digits, the hyphen and the underscore |
| Salvage.CopyRows | cmd/picache/db.go:429-518 | For every run that ends: the loop goes through the steps of the scan in int64; the rows copied are those that transactions which committed took, the rows lost the others that were read and, with a known largest rowid, the failed probes; with truthful reads every row from 1 on is in the account unless the loss is marked unknown, also in runs that insert rows again; without a late window no rowid is inserted twice or both copied and lost |
| Salvage.CopyTable | cmd/picache/db.go:411-423 | The rows copied stay as the scan counted them; copied + lost is what the scan accounts for, or the count of the source when that is larger and the loss is not unknown; at least the number of rows when the largest rowid is known |
| Salvage.AllCopied | cmd/picache/db.go:478-518 | A destination that takes and commits everything has every row that was read |
| Salvage.InsertRows | cmd/picache/db.go:546-570 | Together the copied and lost rows are all of the chunk; copied are those the new schema takes, none when the commit fails, and with all or nothing all of them when all fit, else none |
| Salvage.TakenCount | cmd/picache/db.go:553-562 | The rows taken are as many as the places of rows that the new schema takes |
| Salvage.CopyWithoutRowid | cmd/picache/db.go:455-467 | A table without rowids is copied all or nothing; what cannot be read is counted as lost or marked unknown |
| Salvage.CountCovers | cmd/picache/db.go:468-518 | Rows each read or failed are at most the sum of the two lists |
| Salvage.RunGood | cmd/picache/db.go:478-518 | For every read oracle, truthful or not: a run without a late window ends and inserts no rowid twice |
| Salvage.RunAccounted | cmd/picache/db.go:478-518 | With truthful reads every row up to the place of the scan is read or has a failed probe after every step of every run, also when windows run over the end of int64 |
| Salvage.KnownExactly | cmd/picache/db.go:478-518 | For every table with a known largest rowid: the scan ends and inserts no rowid twice under all truthful oracles exactly when that rowid is more than a window of 1000 away from the end of int64 |
| Salvage.UnknownExactly | cmd/picache/db.go:478-518 | The same for tables whose largest rowid cannot be read: exactly when each rowid is so far away that 1000 failed windows do no harm |
| Salvage.NeverEnds | cmd/picache/db.go:495-508 | A failed window that ends with the last int64 is probed without an end |
| Salvage.InsertedTwice | cmd/picache/db.go:495-518 | A concrete run that inserts a row near the end of int64 twice |
| Schedule.LastDue | internal/app/backupsched.go:264-276 | The latest scheduled time at or before now of the dates up to today, always found among the nine dates; it is the latest of all exactly when no occurrence of a later date has come |
| Schedule.NextDue | internal/app/backupsched.go:278-288 | The earliest scheduled time after now of the dates from today on, always found; it is the earliest of all exactly when no occurrence of an earlier date is still to come |
| Schedule.NextDueMisses | internal/app/backupsched.go:253-288 | A zone whose clock change carries an occurrence past midnight: the next date's search misses it |
| Schedule.NothingBetween | internal/app/backupsched.go:264-288 | No scheduled time lies between the two |
| Schedule.OrdinaryZone | internal/app/backupsched.go:258-263 | In zones whose local dates follow each other and whose occurrences lie on their dates both searches are exact at all times |
| Schedule.DueOncePerPassing | internal/app/backupsched.go:209-237 | For every sequence of clock readings: how often a time is due is how often the clock was set back over it, and once more when the run passes it |
| Schedule.DueOnce | internal/app/backupsched.go:209-237 | Without a step back each scheduled time lies in exactly one interval |
| Schedule.DueAgainAfterSetBack | internal/app/backupsched.go:209-237 | A daily schedule and a clock set back by half an hour: the run of the scheduler has exactly two scheduled attempts, for one scheduled time |
| Schedule.BackupScheduler.Tick | internal/app/backupsched.go:213-237 | One attempt for all scheduled times of dates up to today in an interval; otherwise one for a catch-up that is due and still needed; the planned catch-up is cleared exactly in these cases |
| Schedule.BackupScheduler.Loop | internal/app/backupsched.go:159-181 | In a whole run of ticks the scheduled attempts are as many as the ticks that see a scheduled time in their interval; there is one catch-up attempt exactly when one is planned at the start, the first tick at or after its time comes before any scheduled attempt and a run is still missed then; there are no others |
| Schedule.OneAttemptEach | internal/app/backupsched.go:159-237 | Over ticks that never go back each scheduled time lies in the interval of at most one scheduled attempt, and of one when the ticks pass it and no occurrence of a later date has come at any of them |
| Schedule.PassedExactly | internal/app/backupsched.go:213-276 | The tick that passes an occurrence makes an attempt exactly when it is not before the occurrence's date or sees an earlier occurrence in its interval |
| Schedule.NeverAttempted | internal/app/backupsched.go:213-276 | A zone whose clock change moves an occurrence back over midnight: ticks that pass it make no attempt |
| Schedule.BackupScheduler.Start | internal/app/backupsched.go:299-312 | A run begins exactly when none is going and the scheduler was not stopped |
| Schedule.ConsecutiveStampsDiffer | internal/app/backupsched.go:314-325 | Two runs one after the other never share a stamp, whatever the clock does |
| Schedule.StampsAscendExactly | internal/app/backupsched.go:314-325 | The stamps of all runs ascend exactly when no run begins a minute or more before the second that an earlier run, counting one more for each run since, asks for |
| Schedule.StampIsAsked | internal/app/backupsched.go:314-325 | Runs fall into stretches, a new one where a run is a minute or more behind; the stamp of a run is the latest second that a run of its stretch, counting one more for each run since, asks for |
| Schedule.SharedExactly | internal/app/backupsched.go:314-325 | Two runs share a stamp exactly when they are of different stretches that ask for the same second |
| Schedule.OneStretch | internal/app/backupsched.go:314-325 | Without a long way back there is one stretch, and no two runs share a stamp |
| Schedule.StampShared | internal/app/backupsched.go:314-325 | A clock set back by 100 seconds between runs: the third run has the stamp of the first |
| Retention.StampOrder | internal/app/backupsched.go:429-440 | For all valid times: the text order of two stamps is the order of the times |
| Retention.FieldsAreTime | internal/app/backupsched.go:429-440 | The order of year, month, day and time of day is the order of seconds, leap years included, and equal seconds are equal times |
| Retention.DayAfterIs | internal/app/backupsched.go:429-440 | By the lengths of the months in the Gregorian calendar each date is 86400 seconds after the one before |
| Retention.NameOrder | internal/app/backupsched.go:429-440 | The names of one installation's backups sort as their times |
| Retention.Scan | internal/app/backupsched.go:485-508 | Reads batches of at most 256 names; the whole directory while it fits the bound |
| Retention.List | internal/app/backupsched.go:510-533 | This installation's backups, newest first, each once |
| Retention.Folder.Prune | internal/app/backupsched.go:470-483 | Nothing but this installation's backups is deleted; in a directory that fits the bound a backup stays exactly when fewer than keep of them carry a later stamp |
| Retention.LaterAre | internal/app/backupsched.go:470-483 | The backup at place i of the list has exactly i later ones |
| ListenerRules.OverlapMeans | internal/api/routes_listeners.go:343-366 | Two literal or wildcard listeners overlap exactly when they are on one port and some address is answered by both |
| ListenerRules.CheckListeners | internal/api/routes_listeners.go:207-297 | Accepts a request exactly when its canonical set is acceptable: the file rules, no locked role, only addresses of this host, no clash by TCP or UDP, DNS and cache not empty, the web UI served locally and at the requester's address |
| ListenerRules.AcceptedExactly | internal/api/routes_listeners.go:207-297 | What is accepted in terms of the set, the values of the host and its addresses: the rules of the file, no locked role, own addresses, no common port and address of two roles, DNS and cache kept, and a web listener for the tools and for the requester |
| ListenerRules.CheckPortClashes | internal/api/routes_listeners.go:326-341 | Accepts exactly the sets without two overlapping roles of one protocol |
| ListenerRules.NoSharedSocket | internal/api/routes_listeners.go:326-341 | In an accepted set no address and port is answered by two TCP roles |
| ListenerRules.NoSharedSocketUdp | internal/api/routes_listeners.go:326-341 | The same of the two UDP roles |
| ListenerRules.WebStaysReachable | internal/api/routes_listeners.go:276-296 | In an accepted set some web listener answers a loopback address and one the requester's local address, or is a value of the host whose address the tests do not read |
| ListenerRules.ServesLocallyMeans | internal/api/routes_listeners.go:276-285 | The test for the tools of this machine holds exactly when a loopback address is answered |
| ListenerRules.ServesMeans | internal/api/routes_listeners.go:286-295 | The test for the requester's connection holds exactly when the local address is answered |
| ListenerStart.App.BindListeners | internal/app/listeners.go:117-221 | Binds role by role; the sockets, the fallen back roles and whether the start exits are those of StartResult and Exits |
| ListenerStart.App.OpenAll | internal/app/listeners.go:131-151 | All sockets of a role, or none is kept open |
| ListenerStart.SocketsMean | internal/app/listeners.go:131-206 | A role asks for UDP and TCP on each of its addresses when it is DNS, UDP when it is NTP, and TCP otherwise |
| ListenerStart.OpenedMeans | internal/app/listeners.go:163-199 | Of the values of a role each is bound exactly when it can be opened beside those before it that were |
| ListenerStart.App.LoadSavedListeners | internal/app/listeners.go:87-107 | A next set that keeps the rules is the candidate, else a current one that does, else none; with run-as always none |
| ListenerStart.App.FinishListenerFiles | internal/app/listeners.go:280-318 | listeners.json holds exactly the saved roles that neither failed nor are locked, the next set is gone, and the failed file holds the whole set exactly when a role failed |
| ListenerStart.FilesOfStart | internal/app/listeners.go:87-318 | By the files before a start: the next set is gone exactly when it was the one tried, the current file holds its roles that were kept, and a set that is only the current one leaves the next file as it is |
| ListenerStart.AllOrNone | internal/app/listeners.go:163-199 | A saved role that no flag or variable locks ends with all of its saved addresses bound, or with none of them kept; then, and for every other role, only values of the host are bound for it |
| ListenerStart.SecondStartBindsTheSame | internal/app/listeners.go:280-318 | A second start against the same outside sockets binds the same sockets with no fallback, if the set written back keeps the file rules |
| ListenerStart.WrittenBackValid | internal/app/listeners.go:280-318 | The set written back breaks the file rules exactly when it switches the web UI off and its https role did not stay |
| ListenerStart.FilesCanBeAReason | internal/app/listeners.go:113-116 | A set that the check accepts and a host where the start exits with it and not without it: a saved cache address takes the port that the web UI falls back to |
| ListenerStart.WebOffCanBeAReason | internal/app/listeners.go:113-116 | Another such set on the same host, where no saved address is in the way: the web UI is switched off and its https address cannot be bound |
| ListenerReason.FilesAreReasonExactly | internal/app/listeners.go:113-206 | For every set that keeps the rules and every host whose own values do not clash: whatever sockets other programs hold can make a start exit with the set and not without it exactly when, for one of the ways that DNS can stand, no saved web address opens wherever a value of a saved web role does, and that role is switched off or each of its values that is free there has a saved address of DNS, the cache or SNI in its way which its role can take |
| ListenerReason.OnLoopbackIsSafe | internal/app/listeners.go:113-206 | A set that switches the web UI off and keeps https on the loopback address of its port is no reason on any host |
| ListenerReason.OtherRolesAreSafe | internal/app/listeners.go:113-206 | A set that saves neither web role is never the reason |
| ListenerReason.ExitsByAddress | internal/app/listeners.go:131-206 | On every such host a start exits exactly when DNS can take neither its saved addresses nor its values, or no web role binds an address beside those that DNS, the cache and SNI hold |
| ListenerReason.AcceptedSetting | internal/api/routes_listeners.go:207-297 | Every set that the check accepts is covered |
| WebLimit.WebLimiter.Acquire | internal/app/weblimit.go:78-114 | Admits exactly when no cap is reached by the addresses connected, and then the counters count it; a refusal changes nothing. This machine may use the reserve and counts for no client, a trusted proxy counts for no client, any other address for its key and /64 |
| WebLimit.NoRoomMeans | internal/app/weblimit.go:78-114 | The test on the counters is the test on the addresses that are connected |
| WebLimit.WebLimiter.Release | internal/app/weblimit.go:116-123 | The counters agree with the open connections without this one |
| WebLimit.WebLimiter.Accept | internal/app/weblimit.go:141-157 | Hands out the first connection that is admitted and closes those refused before it |
| WebLimit.WebLimitConn.Close | internal/app/weblimit.go:159-167 | Frees the slot the first time only, however often it is called |
| WebLimit.AdmittedAgrees | internal/app/weblimit.go:78-114 | After an admission the three counters equal the open connections in total, per client key and per /64, with no zero entries |
| WebLimit.ReleasedAgrees | internal/app/weblimit.go:116-134 | The same after a release |
| WebLimit.AdmittedWithinCaps | internal/app/weblimit.go:78-114 | Every cap still holds after an admission, and the network's connections never exceed the total |
| WebLimit.ReserveIsKept | internal/app/weblimit.go:78-114 | A connection of this machine is admitted whenever fewer than the reserve of them are open |
| WebLimit.NetworkIsSumOfKeys | internal/app/weblimit.go:47-73 | The count of a /64 is the sum of the counts of its /128 keys |
| WebLimit.Decrement | internal/app/weblimit.go:125-134 | One less, and the entry is deleted at zero |
| HealthWatch.HealthWatch.Observe | internal/app/events.go:52-95 | The messages of an evaluation are a function of the whole history, check by check in order, then recoveries of the reported checks that are gone, by name |
| HealthWatch.OneEventEach | internal/app/events.go:52-95 | An evaluation that lists no name twice is one event of every check, listed or gone |
| HealthWatch.SaidExactly | internal/app/events.go:36-95 | A problem is sent exactly when the last two evaluations list the check with that status, warn or fail, and the last message is not that problem; a recovery exactly when the check is ok or gone and the last message is a problem |
| HealthWatch.RecoveryFollowsProblem | internal/app/events.go:36-41 | A recovery is sent only after a reported problem, with no message in between |
| HealthWatch.ToldWasSent | internal/app/events.go:42-51 | The problem remembered is one that was sent, and nothing was sent since |
| HealthWatch.StoreWatch.Observe | internal/app/events.go:122-151 | Offline is sent once in a long offline run; online only after it |
| HealthWatch.OfflineSinceMeans | internal/app/events.go:122-151 | The store is offline since the first observation of the offline run |
| HealthWatch.LongOfflineMeans | internal/app/events.go:118-151 | An offline run is long exactly when one of its observations is two minutes or more after its first |
| DropTracker.DropTracker.RecentDrops | internal/app/health.go:436-458 | For every history of counts of every sink the result is the growth of the latest episode while its last growth is in the window, and 0 otherwise |
| DropTracker.EpisodeIsMaximal | internal/app/health.go:436-438 | The latest episode is the longest run of growths at the end of the history without a gap of more than the window |
| DropTracker.GrowthsMean | internal/app/health.go:436-458 | The count grows exactly at the observations that are higher than 0 and all before them |
| DropTracker.EpisodeTotal | internal/app/health.go:436-458 | The difference of the two counts kept is the sum of the growths of that episode |
| ProfileLinks.Store.Add | internal/api/routes_encrypted.go:327-354 | The link joins the history of all links and the map holds only good ones, at most 32 |
| ProfileLinks.Store.Get | internal/api/routes_encrypted.go:357-370 | A link is found exactly until 15 minutes passed or 32 later links were added |
| ProfileLinks.Store.Allow | internal/api/routes_encrypted.go:372-398 | Refuses exactly a key with 20 downloads in its window or a new key while 256 windows are open; the times of the downloads allowed grow by exactly the allowed one |
| ProfileLinks.AtMostForty | internal/api/routes_encrypted.go:372-398 | In any minute at most 40 downloads of one key are allowed |
| ProfileLinks.AtMostMax | internal/api/routes_encrypted.go:327-354 | At most 32 links are held |
| ProfileLinks.RoomLeft | internal/api/routes_encrypted.go:332-349 | With fewer than 32 unexpired links none of the last 32 that is still good is missing |
| ProfileLinks.OldestGoes | internal/api/routes_encrypted.go:338-349 | The one evicted is the one created first, which 32 later links have outlived |
| LocalCa.CaConstraints | internal/app/localca.go:186-213 | The constraints are exactly the kept own names, the own addresses as single ranges, and a family without addresses as a whole |
| LocalCa.OnlyOwnDevice | internal/app/localca.go:186-241 | Of the names directly under the local or a search domain the CA permits exactly the own kept ones, and never the domain itself |
| LocalCa.BroadNotPermitted | internal/app/localca.go:215-226 | No name that is a domain of the network or above one is permitted, even below another own name |
| LocalCa.OnlyOwnAddrs | internal/app/localca.go:201-212 | The addresses permitted are exactly the own ones |
| LocalCa.FamilyExcluded | internal/app/localca.go:201-212 | A CA excludes the addresses of a family exactly when the identity has none of it |
| LocalCa.NeverUnconstrained | internal/app/localca.go:186-200 | A new CA always has a name constraint; with none all names would be allowed |
| LocalCa.NamesHaveBuiltIn | internal/app/localca.go:73-101 | The own names hold localhost and picache, also in every domain in which these are valid host names |
| LocalCa.OwnNames | internal/app/localca.go:71-101 | Exactly the names that the configured ones give, single labels also in each domain, each once |
| LocalCa.GivesMeans | internal/app/localca.go:71-101 | A configured name gives itself when it is valid once cleaned, and when it is a single label also its valid names in the domains |
| LocalCa.LeafSans | internal/app/localca.go:259-283 | The certificate holds exactly the own names and addresses that the CA permits and the wildcard, and reports the rest but for a server name left out |
| LocalCa.LeafExactly | internal/app/localca.go:259-283 | The names are the own ones that the CA permits, with the wildcard below the server name while DNS over TLS is on; reported are the other own names but a server name that a new CA leaves out too |
| LocalCa.LeafCovers | internal/app/localca.go:259-283 | Under a CA made for the same identity every own address and every kept own name is covered, and the entries reported are exactly the broad own names other than the server name |
| LocalCa.LeafWithinCa | internal/app/localca.go:259-283 | Under any CA the certificate holds only what it permits, and the wildcard comes with the server name |
| LocalCa.PermitsBelow | internal/app/localca.go:228-241 | A CA that permits a name permits every name below it |
| LocalCa.CheckName | internal/app/localca.go:228-241 | The loop over the constraints decides exactly whether one permits the name |
| LocalCa.CheckAddr | internal/app/localca.go:243-257 | An address is permitted exactly when no excluded range and some permitted range contains it |
| LocalCa.AddressBits | internal/app/localca.go:201-212 | IPv4 addresses have 32 bits and IPv6 addresses 128 |
| LocalCa.ServerNameExcluded | internal/app/localca.go:53-69 | The server name is left out exactly when it is empty, broad, or at or above an extra host |
| LocalCa.ExtraNotByServerName | internal/app/localca.go:53-69 | An extra host is permitted exactly when it is an own name, or below one, that is not the server name and not broad: the server name never permits it |
| Devices.SortSelect | internal/api/devices.go:254-280 | For every stable sort: sorting all rows and then taking one device's is taking them and then sorting |
| Devices.SeriesIsPrefix | internal/api/devices.go:254-280 | The addresses of a device's series are the first 256 of its group |
| Devices.GroupClientStats | internal/api/devices.go:86-143 | Each device has one group, which merges its rows in order: address, time, sums, client, the MAC that all known ones share, and the name by its rules |
| Devices.MergedMeans | internal/api/devices.go:105-131 | A group has the client of its last row with one, a MAC exactly when all rows with a known one share it, and without a device name the name of its first row with one |
| Devices.CountersConserved | internal/api/devices.go:91-143 | All four counters of the groups sum to those of the rows |
| Devices.AddressesPartitioned | internal/api/devices.go:91-143 | Each address is in the groups as often as in the rows, and in its own device's group only |
| Devices.LatestSeen | internal/api/devices.go:86-116 | Each row's device has a group that lists its address and carries a time at least as late |
| Devices.OneOrder | internal/api/devices.go:138-142 | The order of the groups has no ties, so any sort by it gives the same list |
| Devices.OneGroupEach | internal/api/devices.go:50-56 | Two addresses are in one group exactly when the registry gives them one key; an address without a key is alone |
| Devices.MostQueriesFirst | internal/api/devices.go:138-142 | The groups come by queries, then by cached bytes, then by address |
| Devices.RecentFirst | internal/api/devices.go:91-104 | The addresses of a group come by the time they were seen, the latest first, then by address |
| Devices.DeviceAddresses | internal/api/devices.go:252-280 | The loop gives the prefix of the selected addresses |
| Devices.GroupTop | internal/api/devices.go:145-189 | The groups of a top list, sorted and cut to the limit |
| Devices.TopConserved | internal/api/devices.go:145-189 | Before the cut counts and bytes are those of the ungrouped list |
| Devices.ActiveFirst | internal/api/devices.go:145-171 | The addresses of a group of a top list come by bytes or by count |
| Devices.TopMembers | internal/api/devices.go:145-189 | A group of a top list has exactly the addresses of the list with one key, and is listed under the most active of them |
| Devices.CutKeepsTheTop | internal/api/devices.go:188-189 | What is cut has no more bytes, or no higher count, than what stays; of equals the first address stays |
| Devices.DeviceName | internal/api/devices.go:57-76 | The name of the first configured or IPv4 member that has one, else the first name |
| Devices.NameMeans | internal/api/devices.go:57-76 | The name of a device is that of its first configured or IPv4 member with a name, else of its first member with one, else none |
| Devices.Partition | internal/api/devices.go:91-100 | The rows of each key in their order, and every key once |

## Left out

- Restore.App.Run: removing a file is taken to succeed, and so is the removal in a refusal whose rename failed: the program ignores those errors. Renames may fail, and the removal of the staged file of a partial restore.
- Restore.NothingLost: SQLite may fold its log into the database whenever it opens it but changes no content, and checks that passed have folded it (the comment at internal/app/backup.go:443-444); journal files beside the staged file are not modelled.
- UpgradeCopies.CopiesOpenByName: speaks of runs without the death described by HalfExactly; copies that versions before 1.0.0 make and prune themselves are not events of a run.
- UpgradeCopies.EveryChangeHasItsCopy: versions before 1.0.0 are started, record themselves and migrate, but the copies that they make and delete are not events of a run; their pruning keeps no copy of every schema.
- UpgradeCopies.Installation.PruneBackups: takes the copies in any order that is newest first, which covers a sort that is not stable; a removal is taken to succeed.
- UpgradeCopies.Installation.Start: two development builds with one name have one schema.
- Salvage.CopyRows: speaks of runs that end; KnownExactly and UnknownExactly say for which tables all do. A read that succeeds returns at most 1000 existing rowids beyond the last one in ascending order; it may end early or, if it is not truthful, leave rows out.
- Schedule.LastDue: zones that skip a whole local date, or move an occurrence by more than a date, are left out; where a date is skipped the program takes the weekday of the date that the skipped one turns into, and a weekly run on it may not be found.
- ListenerReason.FilesAreReasonExactly: a host has 127.0.0.1, and its other programs hold any ports of its addresses; a listener on every address is free when its port is on all of them, a host name included. Two of PiCache's own sockets exclude each other exactly when the check says that they overlap. The host's own values are taken not to clash.
- ListenerStart.App.FinishListenerFiles: writing and removing the three files is taken to succeed.
- ListenerStart.App.BindListeners: the sockets of the DHCP service are left out, and so are the texts of the recorded errors.
- Retention.Folder.Prune: a directory with more names than the scan bound of 10000 keeps backups that the scan does not see.
- WebLimit.WebLimiter.Acquire: the rate of its log messages is left out.
- LocalCa.OwnNames: how names and domains are trimmed and lowered and which host names are valid are functions given to it; domains come trimmed, and IPv4-mapped IPv6 addresses do not occur.
- Devices.GroupClientStats: counters are unbounded integers; int64 is not modelled there.
- JSON text, number spelling and the limits of the library: tokens are the start.
- The scrubber's patterns, its placeholders and its address masking: library patterns and field rewriting.
- SQL, schemas of components, the integrity checks and account tables of a restored backup: they are answers.
- HTTP handlers, command line output, log and message texts, notifications by mail or push.
- Certificates, keys and random tokens: only names, addresses and hashes are modelled.
- DNS resolution, the filter engine, the cache store and the proxy: not part of this model.
- Locks: each method is one step of its object; the order of steps of different threads is any order of calls.
