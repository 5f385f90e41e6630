# Verified models of the desktop platform's stateful core

This project models the parts of the platform that keep state over time or take text apart, and
proves what they are relied on for. Each Dafny module follows one source file (or two that work
together). Where the source changes things in place there is a class with the same fields whose
methods are proved against functions on values; the lemmas about those functions then speak about
every input, every run and every interleaving.

| module | what it models |
|---|---|
| `LogArgs` | what a `git log` query asks for: option checks, the argument list, and git's reading of it |
| `LogPager` | the streaming `git log` pager, its record reader, and the one-shot query it speeds up |
| `OpenRepos` | opening and closing repositories concurrently, with the reference-counted lock table |
| `UnifiedDiff`, `Blame`, `RebaseTodos` | text that git prints or reads: unified diffs, porcelain blame, rebase todo lists and the quoted editor path |
| `PluginHost`, `PluginLifecycle`, `PluginTasks`, `PluginCatalog`, `PluginDescriptors` | the static plugin host, plugin contexts and their task tables, the catalog, manifests |
| `ToolRegistry` | the ordered tool list with reordering, saved orders and atomic multi-entry registration |
| `PluginSettings`, `SettingsStore`, `ConcurrentSaves` | typed settings snapshots; their versioned storage with one backup; saves that overlap |
| `SingleInstance` | the Linux single-instance protocol as steps of any number of processes |
| `FollowLog` | the container log assembler, its batch counterpart, and the bounded batch |
| `Template`, `TokenCache` | `{{name}}` expansion; the OAuth2 token cache under interleaving |
| `IconCache`, `RotatingLog` | the bounded least-recently-used icon cache; the size-rotating log writer |
| `Text`, `Seqs`, `StableOrder`, `OrderedMaps`, `Wrappers` | text, sequences, stable sorting, ordered maps, options and results |

`dafny verify dfyconfig.toml` checks the whole project.

## Assumptions

- A git process is a fixed stream of bytes, cut into chunks of any size; reading it, waiting for it
  and its exit status may fail at any time. The field parser of one record is a parameter. Its records
  are not empty, do not start with a newline and do not hold the record separator: exactly then the
  readers see them as they are (`LogPager.PiecesAreTheRecordsExactlyForGit`). What the readers see of
  any other records is stated without this assumption (`LogPager.OutputParsesAsPieces`,
  `LogPager.StreamedPageIsPieces`).
- Git reads its arguments as its manual says: keywords, authors and revisions add up, the last time
  counts, case is ignored for every pattern or none, and everything behind `--` is a path. What it lists
  under given filters is a parameter; skipping and counting come after filtering.
- In the other text modules texts are decoded characters; byte limits are counted in UTF-8.
- Plugin callbacks, the loading of settings and secrets, file operations, storage writes, the token
  endpoint and clocks are the environment's: their outcomes are arbitrary, and clocks never go back.
- Plugins list the default catalog entries, one for each entry of their manifest.
- A process that connects to a live listener reaches it.
- JSON is an exact encoding whose length is a parameter.
- DashMap operations and sections under a mutex are atomic steps.

## What the code does that its comments do not say

Each of these is a lemma with the exact condition, not a weaker statement of the property.

- The pager counts the newline git puts in front of a record, the one-shot parser does not: a record
  of exactly 4 MiB that is not the first of a listing is refused by the pager only
  (`LogPager.StreamingFailsOnlyOnMaximalRecords`).
- The other way round, a page can succeed where the one-shot query for it is refused, exactly when the
  output with its separators is over 64 MiB (`LogPager.OneShotFailsOnlyOnItsSize`).
- On records of any text, short of the limits, pages and one-shot queries agree for every record parser
  exactly when every record is one piece, up to empty ones at the end
  (`LogPager.ReadersAgreeExactlyWithOnePiecePerRecord`). A record separator at the end of a subject is
  harmless (`LogPager.SeparatorAtTheEndIsHarmless`); one with text behind it makes the one-shot query
  refuse the listing while a page returns the subject cut
  (`LogPager.SeparatorInSubjectMakesThemDisagree`).
- The branch flag of a query is part of its key but not of its arguments: a query that differs in nothing
  else gives up the kept process although it asks for the same listing
  (`LogArgs.SameListingExactlyForSameKey`). A keyword makes the author filter ignore case as well
  (`LogArgs.ArgsSayTheOptions`).
- A second close of a repository can return while its path still maps to it: exactly when the first is
  between its two removals (`OpenRepos.SecondCloseReturnsEarly`).
- An orderly exit removes the socket path outside the startup lock, and this is harmless exactly when
  nobody listens (`SingleInstance.FinishDropIsSafeExactlyWhenNobodyListens`); in every other case two
  primaries are reachable (`SingleInstance.UnlinkLetsSecondPrimaryIn`), also from the start
  (`SingleInstance.OrderlyExitCanLeaveTwoPrimaries`).
- The comment in `expand_template` says that generation stops at the limit. The code compares the
  length once, at the end; what is returned is within the limit either way.
- `update_namespaced` does not look at `sensitive`: a snapshot updated through it cannot be loaded
  again exactly when the key is a sensitive one
  (`PluginSettings.UpdateNamespacedIsReadableExactlyWhenNotSensitive`).
- Settings namespaces are not disjoint: those of two plugins overlap exactly when one id continues the
  other after a dot (`PluginSettings.NamespacesOverlapExactlyWhenNested`).
- A save copies a damaged primary record over the good backup
  (`SettingsStore.SavingOverDamageLosesTheBackup`), and a primary record over the size limit can never
  be replaced (`SettingsStore.SavesExactlyOverBoundedRecords`).
- Saves of one plugin that overlap can leave a backup older than the previous version, or none after
  two saves (`ConcurrentSaves.OverlappingSavesLeaveAnOldBackup`,
  `ConcurrentSaves.FirstSavesLeaveNoBackup`). There is a backup exactly when some save wrote one
  (`ConcurrentSaves.BackupExistsExactlyWhenWritten`), and it is the version its last writer had read
  (`ConcurrentSaves.BackupIsWhatItsWriterRead`).
- A load that falls between saves can report a recovery although nothing was damaged: exactly when its
  first read found no record and a backup was written before its second
  (`ConcurrentSaves.LoadAcrossSavesGivesAPrimary`).
- Dragging a tool onto another chooses the side before it takes the write lock: when the list changes
  in between, the tool takes the target's slot exactly when the two still stand in the order that was
  seen (`ToolRegistry.DragOverChangedTools`).
- A diff line that deletes "-- ..." or adds "++ ..." is taken for a file header, and then the whole
  diff is refused (`UnifiedDiff.RoundTripsExactlyWithoutLookalikes`).
- The blame parser drops a carriage return at the end of a line's text, author or subject
  (`Blame.BlameRoundTripsExactlyWithoutReturns`).
- An entry id longer than 122 characters is valid in a manifest but can never be executed
  (`PluginHost.EntryRunsExactlyWhenNameFits`).
- With a saturated id counter a task table loses a live handle (`PluginTasks.StartKeepsConsistent`,
  `PluginTasks.SaturatedIdsLoseATask`).
- A log write that the disk cuts short is not counted, so the size bound holds over all later runs
  exactly when none of its bytes arrived (`RotatingLog.ShortWriteStaysBoundedExactlyWhenEmpty`).
- A rotation that moves the log and makes the new file, but cannot restrict it, makes the next rotation
  move the empty file over the backup: the full log is lost (`RotatingLog.EmptyFileReplacesTheBackup`).
- An icon over the byte limit is not cached, but an older icon under the same key stays and is still
  returned; hits are the last insertion that was not over the limit (`IconCache.HitsAreLastAccepted`).
- Four branches are dead: the last check of plugin registration (`ToolRegistry.NoEntryIsMissing`), the
  limit on migration steps (`SettingsStore.AtMostOneStepRuns`), the removal of a stale mapping on
  opening (`OpenRepos.MappingsSeenAreLive`), and keeping another handle's mapping on closing
  (`OpenRepos.ClosingFindsItsMapping`).

## Model

| member | source | states |
|---|---|---|
| `LogPager.PageIsSlice` | crates/ramag-infra-git/src/log.rs:284-320 | a streamed page succeeds exactly when its records fit the limits and parse; then it holds exactly their commits, leaves exactly the later records unread, and reports the end exactly when the listing ran out |
| `LogPager.ReadLogRecord` | crates/ramag-infra-git/src/log.rs:373-403 | for every chunking of the bytes the reader returns the same record, end or refusal, and consumes exactly that record |
| `LogPager.LogPager.ReadPage` | crates/ramag-infra-git/src/log.rs:284-320 | the page loop gives what an unchunked stream gives; the offset grows by the commits of a page that is not the last |
| `LogPager.OutputParsesAsRecords` | crates/ramag-infra-git/src/log/parse.rs:11-29 | a listing of git records is read by the one-shot parser record by record, with the same limits and the same first error |
| `LogPager.OutputParsesAsPieces` | crates/ramag-infra-git/src/log/parse.rs:11-29 | for records of any text the one-shot parser reads the non-empty, newline-trimmed parts between separators, with the same first error |
| `LogPager.PiecesAreTheRecordsExactlyForGit` | crates/ramag-infra-git/src/log/parse.rs:11-29 | these parts are the records if and only if no record is empty, starts with a newline or holds a separator |
| `LogPager.PageIsParts` | crates/ramag-infra-git/src/log.rs:284-320 | for any text a streamed page succeeds exactly when the parts it takes fit and parse; then it holds exactly their commits and leaves exactly the later parts unread |
| `LogPager.StreamedPageIsPieces` | crates/ramag-infra-git/src/log.rs:284-320 | for records of any text a page that succeeds holds the commits of the first pieces up to its limit, and reports the end exactly when there are fewer |
| `LogPager.OneShotIsPromised` | crates/ramag-infra-git/src/log.rs:59-80 | a one-shot query that succeeds returns the promised slice |
| `LogPager.PageIsPromised` | crates/ramag-infra-git/src/log.rs:284-320 | a page read where a kept process stands is the promised slice and leaves the process at the next page |
| `LogArgs.ArgsSayTheOptions` | crates/ramag-infra-git/src/log.rs:201-230 | read by git's own syntax, the arguments built from accepted options ask for exactly their keyword, author, time, start and path, in the format of the record parser, with the page if it was included |
| `LogArgs.UncheckedStartIsAnOption` | crates/ramag-infra-git/src/log.rs:160-163 | a start that looks like an option would be read as one: the check that refuses it is needed |
| `LogArgs.NoArgumentHoldsNul` | crates/ramag-infra-git/src/log.rs:160-186 | no argument built from accepted options holds a NUL character |
| `LogArgs.SameListingExactlyForSameKey` | crates/ramag-infra-git/src/log.rs:28-57 | queries have the same filters exactly when their keys are equal up to the branch flag |
| `LogPager.ListingsAreAsked` | crates/ramag-infra-git/src/log.rs:59-68 | the one-shot and the streaming process list what the options ask for: one page, or everything |
| `LogPager.LogPagerSlot.RunLogPaged` | crates/ramag-infra-git/src/log.rs:82-147 | after any earlier calls with any queries and outcomes, a returned page holds the commits of the history under the filters asked for, from the page's start up to its limit; refused options are reported; a process is kept exactly after a full streamed page and stands at the next one |
| `LogPager.StreamingFailsOnlyOnMaximalRecords` | crates/ramag-infra-git/src/log.rs:373-403 | where the one-shot query succeeds, the streamed page fails exactly when it has a framed record of maximal size |
| `LogPager.OneShotFailsOnlyOnItsSize` | crates/ramag-infra-git/src/log.rs:59-80 | where a streamed page succeeds, the one-shot query for it succeeds exactly when its whole output fits |
| `LogPager.SamePiecesExactlyWithOnePerRecord` | crates/ramag-infra-git/src/log/parse.rs:11-29 | for records of any text, every page and its one-shot query see the same parts if and only if every record is one part, up to empty records at the end |
| `LogPager.ReadersAgreeExactlyWithOnePiecePerRecord` | crates/ramag-infra-git/src/log.rs:284-320 | short of the limits, pages and one-shot queries both fail or give the same commits, for every record parser and page size, if and only if that condition holds |
| `LogPager.SeparatorInSubjectMakesThemDisagree` | crates/ramag-infra-git/src/log/parse.rs:31-44 | when the part of a subject behind a separator is no record, the one-shot parser refuses the listing while a page of one commit succeeds with the subject cut |
| `OpenRepos.OneHandlePerPath` | crates/ramag-infra-git/src/lib.rs:44-73 | in every interleaving all references for a path are to one lock, one thread at most is inside it, and no path has two live handles |
| `OpenRepos.EveryInterleavingIsSafe` | crates/ramag-infra-git/src/driver/open.rs:3-41 | the invariant on locks, mappings and handles holds after every schedule of opens, closes, prunes and cancellations |
| `OpenRepos.PruningKeepsLocks` | crates/ramag-infra-git/src/lib.rs:64-72 | pruning a path's unreferenced lock leaves every reference pointing to the lock in the table, and one thread at most inside each |
| `OpenRepos.MappingsSeenAreLive` | crates/ramag-infra-git/src/driver/open.rs:13-20 | a mapping found inside the lock always leads to a live handle |
| `OpenRepos.QuietPathsAreExact` | crates/ramag-infra-git/src/driver.rs:37-53 | when nobody is in the middle of a change, a path maps to its one live handle and to nothing else: no orphaned handle, no stale mapping |
| `OpenRepos.ClosedStaysClosed` | crates/ramag-infra-git/src/driver.rs:37-53 | in every schedule, from the end of a close on, its handle is not open and no path maps to it |
| `OpenRepos.CloseEnds` | crates/ramag-infra-git/src/driver.rs:37-53 | a close that runs to its end leaves its handle closed and unmapped |
| `OpenRepos.ClosingFindsItsMapping` | crates/ramag-infra-git/src/driver.rs:46-51 | the second removal of a close always finds the mapping of its handle |
| `OpenRepos.SecondCloseReturnsEarly` | crates/ramag-infra-git/src/driver.rs:37-41 | a close of a handle that is not open changes nothing; a path still maps to the handle exactly when another close is between its removals |
| `OpenRepos.OpenEnds` | crates/ramag-infra-git/src/driver/open.rs:3-41 | an open that runs to its end returns the open handle its path maps to, and reuses a live one found under the lock without opening or remapping anything |
| `OpenRepos.OpensOnlyWhenNoneIsLive` | crates/ramag-infra-git/src/driver/open.rs:22-37 | a new handle is made only for a path without a live one |
| `OpenRepos.StepTouchesOwnPath` | crates/ramag-infra-git/src/driver/open.rs:3-41 | no step changes handles or mappings of a path other than its own |
| `OpenRepos.CloseTouchesOwnHandle` | crates/ramag-infra-git/src/driver.rs:46-51 | a close touches no other handle, nor a mapping to one |
| `UnifiedDiff.ParseUnifiedDiff` | crates/ramag-infra-git/src/diff.rs:102-247 | the one-pass loop computes the line-by-line specification, errors included |
| `UnifiedDiff.EveryResultIsSound` | crates/ramag-infra-git/src/diff.rs:134-296 | in every hunk of every result the lines add up to both declared ranges and are numbered consecutively from the declared starts, within 32 bits |
| `UnifiedDiff.EveryResultIsBounded` | crates/ramag-infra-git/src/diff.rs:102-133 | every accepted text is within the limits on lines and items, and its old path passed the check |
| `UnifiedDiff.KindIsTheLastNamed` | crates/ramag-infra-git/src/diff.rs:115-133 | in every accepted text the file is binary exactly when a line says so, its kind of change is the last one named, and its old path the last one it was renamed from |
| `UnifiedDiff.RoundTripsExactlyWithoutLookalikes` | crates/ramag-infra-git/src/diff.rs:102-268 | printed hunks after any accepted preamble, with the marker of a missing final newline anywhere between the lines, parse back to themselves, ranges and headings included, unless some line looks like a file header; then the text is refused |
| `UnifiedDiff.MarkersAreSkipped` | crates/ramag-infra-git/src/diff.rs:182-247 | the marker of a missing final newline changes nothing wherever it stands |
| `UnifiedDiff.HeaderParses` | crates/ramag-infra-git/src/diff.rs:134-178 | every printed hunk header is read back exactly |
| `UnifiedDiff.LongRangeParses` | crates/ramag-infra-git/src/diff.rs:256-268 | ranges with an explicit count are read back |
| `UnifiedDiff.ShortRangeParses` | crates/ramag-infra-git/src/diff.rs:256-268 | ranges without a count mean one line |
| `Blame.ParsePorcelain` | crates/ramag-infra-git/src/blame.rs:26-128 | the nested loops with the metadata cache compute the group-by-group specification, errors included |
| `Blame.EveryResultIsIncreasing` | crates/ramag-infra-git/src/blame.rs:31-62 | every result has positive, strictly increasing line numbers within 32 bits, no more lines than allowed, and no line of the text was over its limit |
| `Blame.PrintedBlameIsRecovered` | crates/ramag-infra-git/src/blame.rs:71-127 | with a commit's metadata lines in any order among the lines read over, all three present at its first line and any or none later, parsing recovers author, time, subject and text of every line, each up to one trailing carriage return |
| `Blame.BlockIsRead` | crates/ramag-infra-git/src/blame.rs:83-108 | a block of metadata lines in any order that completes a cache entry fills it |
| `Blame.GitsOrderDescribes` | crates/ramag-infra-git/src/blame.rs:143-158 | git's own order, with other lines before, between and after the three, is such a block |
| `Blame.BlameRoundTripsExactlyWithoutReturns` | crates/ramag-infra-git/src/blame.rs:26-128 | for blame printed in any such order, parsing gives every line back exactly when no text, author or subject among them ends in a carriage return |
| `RebaseTodos.BuildTodoContent` | crates/ramag-infra-git/src/rebase_interactive.rs:127-142 | the text built is one joined line per item, or the first error of the checks |
| `RebaseTodos.ValidateTodos` | crates/ramag-infra-git/src/rebase_interactive.rs:144-187 | the checks and the size computed are those of the specification |
| `RebaseTodos.ContentIsExactlyTheTodos` | crates/ramag-infra-git/src/rebase_interactive.rs:127-233 | read back line by line with git's own command names, the text is one command per item in order, whatever the subjects hold |
| `RebaseTodos.AcceptedExactlyWhenRight` | crates/ramag-infra-git/src/rebase_interactive.rs:144-187 | a list is accepted exactly when it is not empty, no limit is exceeded, and every item names an object |
| `RebaseTodos.ActionIsRead` | crates/ramag-domain/src/entities/git.rs:269-279 | every action is written under a name that git reads as that action |
| `RebaseTodos.ContentFits` | crates/ramag-infra-git/src/rebase_interactive.rs:144-187 | the text is never longer than the size that was checked |
| `RebaseTodos.QuotingIsUndone` | crates/ramag-infra-git/src/rebase_interactive.rs:210-212 | every quoted text is one shell word with the text as its value |
| `PluginHost.EveryRunIsSafe` | crates/ramag-app/src/plugin_host.rs:133-308 | in every run with arbitrary callback outcomes, and with task activity and layout changes between operations and between the records of an operation, the safety condition of each phase holds and the phase only moves forward |
| `PluginHost.InitializedAtMostOnce` | crates/ramag-app/src/plugin_host.rs:170-249 | no plugin is initialized twice and only registered ones are |
| `PluginHost.InitializeAllIsSafe` | crates/ramag-app/src/plugin_host.rs:170-249 | initialization goes in registration order, isolates failures, and leaves exactly the successful plugins ready |
| `PluginHost.ShutdownAllIsSafe` | crates/ramag-app/src/plugin_host.rs:252-308 | shutdown callbacks run exactly for the initialized plugins, in reverse order, and everything ends unloaded |
| `PluginHost.RunningToolsAreReady` | crates/ramag-app/src/plugin_host.rs:170-249 | while running, a plugin has tools in the registry exactly when it is ready |
| `PluginHost.StoppedIsEmpty` | crates/ramag-app/src/plugin_host.rs:252-308 | once stopped, no plugin tool or catalog entry is left, all records are unloaded and all task tables closed |
| `PluginHost.RegisterIsSafe` | crates/ramag-app/src/plugin_host.rs:133-168 | registration keeps records, registry and catalog in step, whether it is taken or refused |
| `PluginHost.RightsAreThoseGranted` | crates/ramag-app/src/plugin_host.rs:157-164 | in every run after a registration, the record declares its manifest's capabilities and holds exactly the grants given; without the task capability it never has a live task |
| `PluginHost.EveryRunKeepsRights` | crates/ramag-app/src/plugin_host.rs:133-308 | no operation and nothing from outside changes who a plugin is or what it may do |
| `PluginHost.InitializeStep` | crates/ramag-app/src/plugin_host.rs:184-247 | one record is called once its settings load, ends ready or failed by the outcome, and exactly a failure is noted |
| `PluginHost.ShutdownStep` | crates/ramag-app/src/plugin_host.rs:272-305 | one record is called if it was ready and ends unloaded; exactly a failed call is noted |
| `PluginHost.OutsideKeepsProgress` | crates/ramag-app/src/plugin_host.rs:187-248 | task activity and layout changes from outside keep records, registry and catalog in step and change no state |
| `PluginHost.StaticPluginHost.RegisterPlugin` | crates/ramag-app/src/plugin_host.rs:133-168 | a plugin joins registry, catalog and records together; a refused one, also after the catalog refuses, leaves registry order and catalog as before |
| `PluginHost.StaticPluginHost.InitializeAll` | crates/ramag-app/src/plugin_host.rs:170-249 | the loop over the records, with changes from outside before each, refines the initialization specification |
| `PluginHost.StaticPluginHost.ShutdownAll` | crates/ramag-app/src/plugin_host.rs:252-308 | the reverse loop, with changes from outside before each record, refines the shutdown specification |
| `PluginHost.StaticPluginHost.ExecuteEntry` | crates/ramag-app/src/plugin_host.rs:327-382 | the checks come in the source's order; a started handle is given back when the plugin refuses; what is returned is the new live task of that plugin with the budget capped by the entry |
| `PluginHost.EntryRunsExactlyWhenNameFits` | crates/ramag-app/src/plugin_host.rs:373-376 | a ready plugin runs a declared entry exactly when its id leaves room for the name prefix |
| `PluginHost.EntryRunsExactlyWhen` | crates/ramag-app/src/plugin_host.rs:327-382 | a submission is taken exactly when the plugin is ready, the entry declared, input and capped budget within limits, and a task may start |
| `PluginHost.InputIsRefusedExactlyWhenTooLarge` | crates/ramag-app/src/plugin_host.rs:327-382 | a ready plugin refuses an input for its size exactly when it is over the limit of the entry named |
| `PluginHost.EntriesNeedTheTaskRight` | crates/ramag-app/src/plugin_host.rs:373-376 | no entry of a plugin without the task capability is executed |
| `PluginHost.CappedBudgetIsValid` | crates/ramag-app/src/plugin_host.rs:368-372 | capping a valid budget never makes it invalid |
| `PluginHost.RefusedEntryLeavesNoTask` | crates/ramag-app/src/plugin_host.rs:373-381 | a refused submission leaves the task table as it was |
| `PluginLifecycle.ActivityKeepsContext` | crates/ramag-app/src/plugin_lifecycle.rs:168-217 | nothing a plugin does through its context changes its identity or state, or reopens a closed task table |
| `PluginLifecycle.TasksStartExactlyWhenAllowed` | crates/ramag-app/src/plugin_lifecycle.rs:110-187 | a task starts exactly while initializing or ready, with the capability declared and granted, into an open table with room, under a short name without control characters |
| `PluginLifecycle.RightsAreCheckedInOrder` | crates/ramag-app/src/plugin_lifecycle.rs:110-140 | state first, then what the manifest declares, then what was granted, each refusal exactly when |
| `PluginTasks.EveryRunIsConsistent` | crates/ramag-app/src/plugin_tasks.rs:53-97 | in every interleaving short of saturated ids the table lists exactly the live handles, at most eight, with distinct ids, and flags never fall |
| `PluginTasks.StartKeepsConsistent` | crates/ramag-app/src/plugin_tasks.rs:53-82 | a start keeps the table exact if and only if it does not reuse the id of a live handle |
| `PluginTasks.NothingSurvivesCancelAll` | crates/ramag-app/src/plugin_tasks.rs:84-91 | after a cancellation no start succeeds and every live handle is cancelled |
| `PluginTasks.SaturatedIdsLoseATask` | crates/ramag-app/src/plugin_tasks.rs:68-78 | with a saturated counter a later cancellation misses a live handle |
| `PluginTasks.PluginTaskRegistry.Start` | crates/ramag-app/src/plugin_tasks.rs:53-82 | the errors in their order; a started handle has the next id and a fresh shared flag |
| `PluginTasks.PluginTaskRegistry.CancelAll` | crates/ramag-app/src/plugin_tasks.rs:84-91 | every shared flag in the table is raised and nothing is accepted any more |
| `PluginTasks.PluginTaskRegistry.Drop` | crates/ramag-app/src/plugin_tasks.rs:161-165 | dropping a handle frees exactly its place |
| `PluginCatalog.Catalog.Register` | crates/ramag-app/src/plugin_catalog.rs:88-109 | a group is added whole or not at all, exactly when the limit holds and nothing is listed twice |
| `PluginCatalog.Catalog.RemovePlugin` | crates/ramag-app/src/plugin_catalog.rs:111-114 | exactly the plugin's entries go, the others keep their order |
| `PluginCatalog.DefaultEntriesFit` | crates/ramag-app/src/plugin_catalog.rs:88-109 | the default entries of a new valid plugin are refused only for their number |
| `ToolRegistry.Registry.RegisterPluginEntries` | crates/ramag-app/src/tool_registry.rs:84-172 | all entries of a manifest are appended in its order, or nothing changes; accepted exactly when manifest and tools match and no id is taken |
| `ToolRegistry.Registry.CheckPluginTools` | crates/ramag-app/src/tool_registry.rs:84-125 | the checks pass exactly when the tools are one for each manifest entry |
| `ToolRegistry.NoEntryIsMissing` | crates/ramag-app/src/tool_registry.rs:118-125 | the last check can never fail |
| `ToolRegistry.AppendKeepsWellFormed` | crates/ramag-app/src/tool_registry.rs:84-172 | ids stay distinct and every plugin's tools stay exactly its manifest's entries when a group is added |
| `ToolRegistry.RemovalKeepsWellFormed` | crates/ramag-app/src/tool_registry.rs:187-205 | the same when a plugin is removed |
| `ToolRegistry.PermutationKeepsWellFormed` | crates/ramag-app/src/tool_registry.rs:312-510 | the same under every reordering |
| `ToolRegistry.RollbackRestores` | crates/ramag-app/src/plugin_host.rs:145-156 | taking a freshly added group out again restores the list in its order |
| `ToolRegistry.Registry.UnregisterPlugin` | crates/ramag-app/src/tool_registry.rs:187-205 | exactly the plugin's tools go; the result says whether there were any |
| `ToolRegistry.Registry.SetEnabled` | crates/ramag-app/src/tool_registry.rs:208-225 | one flag of one tool changes; the result says whether it did |
| `ToolRegistry.Registry.SetSurfaceVisibility` | crates/ramag-app/src/tool_registry.rs:525-548 | one surface of one tool changes; the result says whether it did |
| `ToolRegistry.OrderedMeaning` | crates/ramag-app/src/tool_registry.rs:312-342 | applying an order loses nothing, ranks listed ids first by last occurrence, and keeps the previous order within equal rank |
| `ToolRegistry.OrderingIsIdempotent` | crates/ramag-app/src/tool_registry.rs:312-342 | applying an order twice is applying it once |
| `ToolRegistry.SavedOrderIsRestored` | crates/ramag-app/src/tool_registry.rs:297-342 | one registry's order applied to any registry with the same ids is restored exactly |
| `ToolRegistry.Registry.ApplyOrder` | crates/ramag-app/src/tool_registry.rs:312-342 | the list is sorted stably by rank; the result says whether the order changed |
| `ToolRegistry.MovedBesideMeaning` | crates/ramag-app/src/tool_registry.rs:345-400 | the dragged tool stands directly beside the target, all others keep their order |
| `ToolRegistry.Registry.Reorder` | crates/ramag-app/src/tool_registry.rs:345-400 | moves an enabled tool beside an enabled target and reports exactly a change of order |
| `ToolRegistry.Registry.ReorderToTarget` | crates/ramag-app/src/tool_registry.rs:403-430 | the two sections without another change in between: the dragged tool takes the target's own slot |
| `ToolRegistry.DragOverChangedTools` | crates/ramag-app/src/tool_registry.rs:403-430 | with any change between the two sections: only the dragged tool moves, and it takes the target's slot exactly when the two still stand in the order that was seen |
| `ToolRegistry.TargetSlotIsTakenExactlyOnItsSide` | crates/ramag-app/src/tool_registry.rs:427-429 | of the two sides of the target exactly the one in the direction of travel is the target's slot |
| `ToolRegistry.MovedToSlotMeaning` | crates/ramag-app/src/tool_registry.rs:450-497 | in the whole list the tool stands directly before the visible tool that has the slot, or last of all, hidden tools included; only it moves, so on the visible list it lands on the clamped slot |
| `ToolRegistry.Registry.ReorderToIndexWhere` | crates/ramag-app/src/tool_registry.rs:450-497 | the method does that and reports a change exactly when the tool did not already stand there |
| `ToolRegistry.UnchangedExactlyInPlace` | crates/ramag-app/src/tool_registry.rs:450-497 | nothing changes exactly when the tool already stood at that place of the whole list |
| `ToolRegistry.Registry.MoveToEnd` | crates/ramag-app/src/tool_registry.rs:500-510 | the two sections without another change in between: the tool ends behind every other enabled tool |
| `ToolRegistry.MoveToEndOfChangedTools` | crates/ramag-app/src/tool_registry.rs:500-510 | with any change between the two sections: only the dragged tool moves, and it ends last exactly when no other enabled tool has come behind the one seen last |
| `PluginSettings.FromNamespacedValues` | crates/ramag-app/src/plugin_settings.rs:53-122 | the loops compute the specification, first error included, and fill in missing defaults |
| `PluginSettings.ReadSnapshotIsTyped` | crates/ramag-app/src/plugin_settings.rs:53-122 | a snapshot that is read holds declared, non-sensitive values of their kinds and every default |
| `PluginSettings.ReadValuesAreGiven` | crates/ramag-app/src/plugin_settings.rs:53-122 | every value read is the one stored under its full key, or else the manifest's default |
| `PluginSettings.OrderDoesNotMatter` | crates/ramag-app/src/plugin_settings.rs:76-108 | the order of stored pairs decides only which error is reported |
| `PluginSettings.RoundTripsExactlyWithoutSecrets` | crates/ramag-app/src/plugin_settings.rs:53-170 | stored and read again, a snapshot is the same exactly when it holds nothing sensitive |
| `PluginSettings.UpdateMeaning` | crates/ramag-app/src/plugin_settings.rs:173-180 | an update is taken exactly for declared, non-sensitive keys with values of their kind, and changes that value only |
| `PluginSettings.UpdateNamespacedIsReadableExactlyWhenNotSensitive` | crates/ramag-app/src/plugin_settings.rs:183-201 | an update by full key can be read again exactly when the key is not sensitive |
| `PluginSettings.NamespacesOverlapExactlyWhenNested` | crates/ramag-app/src/plugin_settings.rs:213-215 | two plugins share a full key exactly when one id continues the other after a dot |
| `SettingsStore.KeysNeverCollide` | crates/ramag-app/src/plugin_settings_store.rs:348-354 | primary and backup keys are injective and never equal |
| `SettingsStore.AtMostOneStepRuns` | crates/ramag-app/src/plugin_settings_store.rs:132-162 | with registered steps a stored version reaches the current one in at most one step |
| `SettingsStore.PluginSettingsMigrator.Register` | crates/ramag-app/src/plugin_settings_store.rs:91-130 | steps stay consecutive and bounded; the errors in their order |
| `SettingsStore.PluginSettingsMigrator.Migrate` | crates/ramag-app/src/plugin_settings_store.rs:132-162 | the loop computes the migration specification |
| `SettingsStore.DecodesExactlyWithoutSecrets` | crates/ramag-app/src/plugin_settings_store.rs:300-328 | an encoded snapshot decodes, to itself, exactly when it holds nothing sensitive |
| `SettingsStore.LoadReturnsLastSaved` | crates/ramag-app/src/plugin_settings_store.rs:222-280 | after every run of saves one at a time by any plugins, each allowed to fail or stop anywhere, loading returns the last snapshot whose primary write took effect, or the defaults |
| `SettingsStore.DamagedPrimaryIsRecovered` | crates/ramag-app/src/plugin_settings_store.rs:222-260 | after saves one at a time, with only the primary lost or damaged, loading returns the last saved snapshot or the one before, once two saves took effect |
| `SettingsStore.SaveTouchesOwnRecords` | crates/ramag-app/src/plugin_settings_store.rs:263-280 | a save leaves every other plugin's records alone |
| `SettingsStore.DefaultsAreTheManifests` | crates/ramag-app/src/plugin_settings_store.rs:290-298 | without records, loading gives exactly the manifest's non-sensitive defaults, with their values |
| `SettingsStore.DefaultsNeverHideARecord` | crates/ramag-app/src/plugin_settings_store.rs:222-260 | loading succeeds exactly when the primary decodes, or the backup, or there is no record; every other outcome is the error named |
| `SettingsStore.SavingOverDamageLosesTheBackup` | crates/ramag-app/src/plugin_settings_store.rs:263-280 | exactly when a save over a damaged primary makes the settings unrecoverable |
| `SettingsStore.SavesExactlyOverBoundedRecords` | crates/ramag-app/src/plugin_settings_store.rs:263-280 | on a working disk a save succeeds exactly when the record it replaces is within the limit |
| `SettingsStore.PluginSettingsStore.Save` | crates/ramag-app/src/plugin_settings_store.rs:263-280 | backup first, then primary, with every outcome of both writes |
| `SettingsStore.PluginSettingsStore.Load` | crates/ramag-app/src/plugin_settings_store.rs:222-260 | primary, else backup, else defaults; a failed read is reported exactly when its record is needed |
| `ConcurrentSaves.AloneIsSaved` | crates/ramag-app/src/plugin_settings_store.rs:263-280 | a save that nothing interrupts, cut into its sections, does what the sequential save does |
| `ConcurrentSaves.NextKeepsInv` | crates/ramag-app/src/plugin_settings_store.rs:263-280 | every section of every save keeps the primary the last effective snapshot, and the backup and all that waits to be backed up something that was primary |
| `ConcurrentSaves.LoadReturnsTheLastPrimary` | crates/ramag-app/src/plugin_settings_store.rs:222-280 | in every interleaving of failing or stopped saves by any plugins, loading returns the snapshot that became primary last, or the defaults |
| `ConcurrentSaves.RecoveredWasPrimary` | crates/ramag-app/src/plugin_settings_store.rs:222-280 | with only the primary lost or damaged, whatever is recovered from the backup was once the primary |
| `ConcurrentSaves.BackupIsWhatItsWriterRead` | crates/ramag-app/src/plugin_settings_store.rs:263-280 | what is recovered is the version the last writer of the backup had read, however many saves took effect since |
| `ConcurrentSaves.RecentlyReadIsRecent` | crates/ramag-app/src/plugin_settings_store.rs:263-280 | what is recovered is the last snapshot or the one before it when at most one save took effect since the last writer of the backup read |
| `ConcurrentSaves.BackupExistsExactlyWhenWritten` | crates/ramag-app/src/plugin_settings_store.rs:263-280 | a run leaves a backup if and only if there was one or one of its moves wrote one |
| `ConcurrentSaves.OverlappingSavesLeaveAnOldBackup` | crates/ramag-app/src/plugin_settings_store.rs:263-280 | a schedule of two overlapping saves after which the backup is two versions old |
| `ConcurrentSaves.FirstSavesLeaveNoBackup` | crates/ramag-app/src/plugin_settings_store.rs:263-280 | a schedule of two first saves, neither of which writes a backup |
| `ConcurrentSaves.LoadAcrossSavesGivesAPrimary` | crates/ramag-app/src/plugin_settings_store.rs:222-260 | a load whose two reads are cut apart by saves returns the last primary of its first read, else the defaults, or something that was primary if and only if a backup was written in between |
| `ConcurrentSaves.LoadAcrossNothingIsLoad` | crates/ramag-app/src/plugin_settings_store.rs:222-260 | with nothing in between that is the sequential load |
| `SingleInstance.AtMostOnePrimaryInEveryInterleaving` | crates/ramag-bin/src/single_instance_linux.rs:181-235 | in every interleaving of any number of processes, with crashes anywhere and no orderly exit, at most one live process is a listening primary |
| `SingleInstance.EveryScheduleIsSafe` | crates/ramag-bin/src/single_instance_linux.rs:181-325 | the protocol invariant holds after every schedule whose orderly exits meet no listener |
| `SingleInstance.StepKeepsInvariant` | crates/ramag-bin/src/single_instance_linux.rs:181-325 | every step of lock, bind, notification, stale removal, rebind and thread start keeps it |
| `SingleInstance.FinishDropIsSafeExactlyWhenNobodyListens` | crates/ramag-bin/src/single_instance_linux.rs:57-76 | after the unlink of an orderly exit, at most one process becomes a listening primary in every schedule without further exits if and only if nobody listened |
| `SingleInstance.UnlinkLetsSecondPrimaryIn` | crates/ramag-bin/src/single_instance_linux.rs:57-76 | from every state of the protocol in which somebody listens, the unlink can be followed by moves that end in two listening primaries |
| `SingleInstance.OrderlyExitCanLeaveTwoPrimaries` | crates/ramag-bin/src/single_instance_linux.rs:57-76 | a schedule with one orderly exit ends in two listening primaries |
| `SingleInstance.RolesFollowEvents` | crates/ramag-bin/src/single_instance_linux.rs:181-325 | in every schedule a process is told to leave exactly when its lock failed or its message was taken, is a protected primary exactly when its listener started, and runs unprotected exactly when something failed |
| `SingleInstance.RolesAreEarned` | crates/ramag-bin/src/single_instance_linux.rs:181-235 | from the start: nobody is secondary without a failed lock or a taken message, nobody unprotected without a failure of its own |
| `SingleInstance.OneInstanceWithoutFailures` | crates/ramag-bin/src/single_instance_linux.rs:181-325 | with nothing failing and nobody stopping, processes starting and crashing in any order never run two instances, protected or not |
| `FollowLog.InterleavedFollowIsBatch` | crates/ramag-infra-container-docker/src/lib.rs:1088-1169 | for chunks cut anywhere and interleaved over four streams, a stream's lines are those of its whole text exactly when no open line exceeds the limit |
| `FollowLog.FollowedIsBatchExactlyWhenLinesFit` | crates/ramag-infra-container-docker/src/lib.rs:1097-1169 | the same for one stream from any buffer |
| `FollowLog.StreamsAreIndependent` | crates/ramag-infra-container-docker/src/lib.rs:1088-1139 | streams do not disturb each other |
| `FollowLog.CutAnywhere` | crates/ramag-infra-container-docker/src/lib.rs:1097-1125 | cutting a text anywhere changes neither its complete lines nor its rest |
| `FollowLog.FollowLogAssembler.Append` | crates/ramag-infra-container-docker/src/lib.rs:1097-1125 | the draining loop emits exactly the complete lines; buffers stay newline-free and within the limit |
| `FollowLog.FollowLogAssembler.Finish` | crates/ramag-infra-container-docker/src/lib.rs:1127-1139 | every stream gets exactly its open line, or none if it has none, and the streams come in their order |
| `FollowLog.ContainerLogBatch.AppendLogOutput` | crates/ramag-infra-container-docker/src/lib.rs:1171-1184 | every line is kept in order or counted as dropped; both limits hold and the byte count is exact |
| `FollowLog.AllKeptExactlyWhenAllFit` | crates/ramag-infra-container-docker/src/lib.rs:1171-1184 | nothing is dropped exactly when everything fits both limits, and then everything is kept in order |
| `FollowLog.LastLineIsKeptWhenAdmitted` | crates/ramag-infra-container-docker/src/lib.rs:1171-1184 | each line is kept exactly when it fits beside the lines kept before it |
| `Template.ExpandTemplate` | crates/ramag-infra-api/src/http.rs:317-351 | the cursor loop computes the expansion, first error included, and stays within the limit |
| `Template.ExpandIsEvaluate` | crates/ramag-infra-api/src/http.rs:317-351 | every template expands to its literals and looked-up values in order, never rescanned, or to the error of its first bad placeholder |
| `Template.PiecesAreUnique` | crates/ramag-infra-api/src/http.rs:323-343 | a rendered list of literals and placeholders has only that reading |
| `Template.EveryTemplateIsPieces` | crates/ramag-infra-api/src/http.rs:323-343 | every text is such a list, possibly with an unclosed placeholder at its end |
| `Template.ExpandOfRenderIsEvaluate` | crates/ramag-infra-api/src/http.rs:323-345 | expanding a rendered list evaluates it |
| `Template.EvaluatesExactlyWhenKnown` | crates/ramag-infra-api/src/http.rs:328-342 | a template expands exactly when every placeholder is closed and names a known variable |
| `TokenCache.EveryInterleavingIsSafe` | crates/ramag-infra-api/src/oauth2.rs:71-138 | under every interleaving of calls and invalidations: at most 32 entries, one per key, in the order stored; a returned token was issued for exactly the key asked for, to the call itself if it was forced or fetched, and otherwise expires after the check that found it, by more than the margin when found before fetching |
| `TokenCache.StepsAreRecorded` | crates/ramag-infra-api/src/oauth2.rs:71-138 | what this speaks about is what happened: keys, flags and starting times are those a call began with, a return is dated by the step that made it, a token is recorded with the call that received it |
| `TokenCache.CheckFetchesExactlyWhenItMust` | crates/ramag-infra-api/src/oauth2.rs:87-98 | a call fetches exactly when it is forced or no token of its key is good for longer than the margin; otherwise it returns one that is |
| `TokenCache.ForcedCallCachesItsToken` | crates/ramag-infra-api/src/oauth2.rs:104-123 | a forced call returns the token the endpoint issued to it, and caches it as the newest entry |
| `TokenCache.SecondCallReusesFirst` | crates/ramag-infra-api/src/oauth2.rs:104-114 | of two overlapping unforced calls for one key the later takes the earlier one's token |
| `TokenCache.StoringTouchesNoOtherKey` | crates/ramag-infra-api/src/oauth2.rs:114-122 | storing touches no other key, except that a full cache drops exactly its oldest entry |
| `TokenCache.Lifetime` | crates/ramag-infra-api/src/oauth2.rs:242-250 | a stated lifetime is kept up to a day and cut to a day above; only zero is refused; without one the default holds |
| `TokenCache.OAuth2TokenProvider.StoreToken` | crates/ramag-infra-api/src/oauth2.rs:104-123 | the section after fetching: reuse a valid token unless forced, else replace, append and trim |
| `TokenCache.OAuth2TokenProvider.Invalidate` | crates/ramag-infra-api/src/oauth2.rs:126-138 | exactly the key's entry goes |
| `IconCache.EvictionIsShortest` | crates/ramag-infra-clipboard/src/icon_cache.rs:41-51 | eviction removes the shortest least-recently-used prefix that restores both limits |
| `IconCache.NewestStays` | crates/ramag-infra-clipboard/src/icon_cache.rs:25-51 | the key just inserted is never evicted |
| `IconCache.InsertKeepsValid` | crates/ramag-infra-clipboard/src/icon_cache.rs:25-39 | an insertion keeps order, byte count and limits exact and holds the new icon unless it is over the limit |
| `IconCache.TouchKeepsValid` | crates/ramag-infra-clipboard/src/icon_cache.rs:57-69 | a hit changes only the order of use |
| `IconCache.HitsAreLastAccepted` | crates/ramag-infra-clipboard/src/icon_cache.rs:17-69 | after every run a hit is the last accepted insertion under its key |
| `IconCache.OrderIsByLastUse` | crates/ramag-infra-clipboard/src/icon_cache.rs:17-69 | after every run the keys are in the order of their last use, hits included |
| `IconCache.IconCache.Get` | crates/ramag-infra-clipboard/src/icon_cache.rs:19-23 | a hit returns the cached value and becomes the most recently used |
| `IconCache.IconCache.Insert` | crates/ramag-infra-clipboard/src/icon_cache.rs:25-39 | replaces, accounts and evicts as specified |
| `IconCache.IconCache.EvictToLimits` | crates/ramag-infra-clipboard/src/icon_cache.rs:41-51 | the eviction loop leaves exactly what the specification keeps; no subtraction ever saturates |
| `RotatingLog.EveryRunIsBounded` | crates/ramag-bin/src/logging.rs:38-82 | over every run of writes, rotations failing in any way, the log stays within the limit, its count is exact, and it is the end of everything logged |
| `RotatingLog.EveryHealthyRunIsOrderly` | crates/ramag-bin/src/logging.rs:38-82 | with rotations succeeding every call takes its whole buffer, and backup plus log are the end of everything logged |
| `RotatingLog.WriteKeepsBounded` | crates/ramag-bin/src/logging.rs:68-82 | the bound for one call; it fails only by losing the file, and otherwise takes its whole buffer |
| `RotatingLog.RotateRestoresChain` | crates/ramag-bin/src/logging.rs:38-58 | a rotation whose operations succeed leaves a backup of exactly the limit if and only if there was that much to move, and keeps the files the end of everything logged if and only if a log was moved or the backup already was that end |
| `RotatingLog.EmptyFileReplacesTheBackup` | crates/ramag-bin/src/logging.rs:38-58 | after a rotation that cannot restrict the new file, the next rotation loses the full log |
| `RotatingLog.WriteIsPuts` | crates/ramag-bin/src/logging.rs:68-82 | writing in rounds is the same as one byte at a time |
| `RotatingLog.SplittingIsInvisible` | crates/ramag-bin/src/logging.rs:68-82 | how a text is cut into calls does not matter |
| `RotatingLog.TextIsLaidOut` | crates/ramag-bin/src/logging.rs:68-82 | from an empty log the files hold exactly the last pieces of the text cut at the limit |
| `RotatingLog.ShortWriteIsCountedExactlyWhenEmpty` | crates/ramag-bin/src/logging.rs:77-79 | after a write cut short the accounting holds exactly when none of its bytes arrived |
| `RotatingLog.ShortWriteStaysBoundedExactlyWhenEmpty` | crates/ramag-bin/src/logging.rs:68-82 | after a write cut short, the log stays within its limit over every later run if and only if none of its bytes arrived |
| `RotatingLog.UncountedBytesStay` | crates/ramag-bin/src/logging.rs:68-82 | filling the counted room takes the log over the limit by exactly what was not counted |
| `RotatingLog.OpenedLogIsOrderly` | crates/ramag-bin/src/logging.rs:201-218 | a session starts with room in its log, both files within the limit, and the newest bytes of what was there |
| `RotatingLog.OpenedLogKeepsWhatFits` | crates/ramag-bin/src/logging.rs:201-218 | a session drops no more than it must: a log below the limit stays, a backup loses only what is over it |
| `RotatingLog.TailsAreSuffixes` | crates/ramag-bin/src/logging.rs:296-322 | what is retained of an oversized backup is its end |
| `RotatingLog.RotatingLogWriter.Write` | crates/ramag-bin/src/logging.rs:68-82 | the write loop computes the specification for every outcome of the disk |
| `RotatingLog.RotatingLogWriter.Rotate` | crates/ramag-bin/src/logging.rs:38-58 | rotation with its truncating fallback, for every outcome of the file operations |

## Left out

- LogPager.LogPager.Finish: the exit status is an arbitrary outcome; stderr threads, pipes and the cancellation of the child process are not modelled.
- LogPager.LogPagerSlot.RunLogPaged: says nothing about which failures occur, because reading, waiting and the exit status fail at will; `StreamingFailsOnlyOnMaximalRecords` settles the failures that depend on the data.
- LogPager.LogPagerSlot.RunLog: `log_page_error`, which only logs, is not modelled.
- LogArgs.ArgsSayTheOptions: git's own limits on numbers and the fixed options in front of `log` are not modelled.
- FollowLog.InterleavedFollowIsBatch: works on decoded characters; a character cut between two chunks, which lossy decoding replaces, is not modelled.
- SingleInstance.AtMostOnePrimaryInEveryInterleaving: excludes orderly exits, which can break it (`OrderlyExitCanLeaveTwoPrimaries`).
- SettingsStore.LoadReturnsLastSaved: takes saves one at a time (`ConcurrentSaves` lets them overlap) and speaks about snapshots that passed the plugin's own checks and hold nothing sensitive; `DecodesExactlyWithoutSecrets` says what happens to others.
- PluginHost.EveryRunIsSafe: speaks about plugins that list their default catalog entries; what comes from outside while one record is being handled counts as coming before it, except for the tasks of that record's own plugin.
- PluginTasks.EveryRunIsConsistent: ends where the id counter saturates; `StartKeepsConsistent` says what happens there.
- OpenRepos.EveryInterleavingIsSafe: looking a mapping up and finding its handle are one step, which the lock held meanwhile justifies.
- OpenRepos.PruningKeepsLocks: the pruning loop is one step for each path whose lock nobody holds, since other threads run between its entries.
- PluginLifecycle.ActivityKeepsContext: the context is a value kept in its record; its atomic state transitions come down to tests because lifecycle operations hold one lock.
- RotatingLog.EveryRunIsBounded: assumes that the disk takes all it is given between rotations; `ShortWriteStaysBoundedExactlyWhenEmpty` says what happens otherwise.
- RebaseTodos.QuotingIsUndone: unquoted characters and expansions in double quotes, which quoting never produces, are not modelled.
- The exact texts of error messages, diagnostics reports and log output.
- `parse_plan_output`, `parse_name_status`, `collect_response_stream`, the chunk loop of `read_response`, `paginate`, `split_tag_reference`, `emit_follow_log_lines` and `bounded_message`: single loops or expressions that would only add easier members.
- Secret storage, which repeats the shape of the settings store.
- File permissions, symbolic link checks and directory resolution.
- Task execution, timeouts and polling; network transports; everything drawn on screen.
- `open_repo`'s canonical paths and the repository library behind a handle.
