# Verified models of gin-kit

Dafny models of the parts of gin-kit that carry an algorithm or a protocol, with proofs of what each
of them guarantees. `dafny verify dfyconfig.toml` checks everything.

| files | what they model |
|---|---|
| `Diff`, `Patch`, `PatchApply` | the line diff of the CLI: the longest-common-subsequence table filled in place, the walk over it, hunks, the printed unified format (POSIX.1-2017, `diff`, "Diff -u or -U Output Format"), and an independent patch applier that reads nothing but the printed text |
| `Query`, `Like`, `Sql`, `SqlReader`, `SqlMeaning`, `RequestMeaning` | request parsing and the SQL it becomes. `SqlReader` is a small grammar for SQL clauses that binds arguments from left to right and knows nothing of the builder; `SqlMeaning` says which rows the text selects, and `RequestMeaning` what a request's parameters ask for and which requests are accepted |
| `Walk`, `Database`, `Pages`, `Doubles` | cursor walks over a table that changes between pages; that there are databases and tokens as a walk takes them; offset pages, whose number is computed in binary64 (section 4.3.1 of IEEE 754-2008) |
| `Hub`, `HubRuns`, `HubSafety`, `HubHistory`, `HubDelivery`, `HubOverlap` | the realtime hub: its locked sections as methods of a class, and all interleavings of locked sections and channel operations as a state machine; `HubHistory` reads channels, clients and subscribers off the steps of a run |
| `Order`, `Baseline`, `Upgrade`, `UpgradeEffect`, `UpgradeMeaning`, `UpgradeRuns` | the upgrade of vendored files: the plan, the apply and its baseline file, over CLI versions, user edits and interrupted applies; `UpgradeMeaning` says what an upgrade does in terms of files, baseline and render alone |
| `DevProxy` | the front door of `gin-kit dev`, which holds requests during a rebuild |
| `Schema`, `SchemaEnds`, `SchemaMeaning`, `Generator`, `Routes`, `OpenApi`, `DocumentMeaning` | schema reflection over a cyclic type graph, when it ends, and the paths and the component map of a whole document; `SchemaMeaning` and `DocumentMeaning` say what schemas and documents show in terms of types, tags, routes and descriptions alone (Reference Object, section 4.7.23 of OpenAPI 3.0.3) |
| `RateLimit` | the token buckets of the rate limiter and the eviction of idle clients |
| `Local` | names confined to a storage root |
| `Cache` | the in-memory cache with its janitor |
| `Rings` | the ring buffers of the devtools |
| `Text`, `Numbers` | strings, white space, decimal numbers, 64-bit integers |

Code that changes state is modelled by methods: over arrays (`Diff.LcsTable`, `Rings.Ring`), over fields
of classes (`Hub.Hub`, `Upgrade.Project`, `Generator.Traversal`, `RateLimit.RateLimiter`, `Cache.Memory`,
`DevProxy.Proxy`), or over local variables in loops. Each is proved against a function or a predicate, and
the properties are proved about that.

Some promises hold only under a condition. The theorems name the exact condition:

- eviction by the rate limiter is invisible exactly if the burst is at most ten minutes' worth of requests
  (`RateLimit.EvictionIsInvisibleExactly`);
- the page count computed in doubles is right for every page size and all totals up to a bound exactly if the
  bound is at most 2^53 (`Pages.CeilingHoldsExactlyUpTo`); with 2^53 + 1 rows, one a page, it is wrong
  (`Pages.CeilingFailsAbove`);
- a page size equal to the largest integer makes the cursor limit negative (`Sql.CursorLimitProbesExactly`);
- `readBaseline` undoes `writeBaseline` exactly on paths without white space (`Baseline.RoundTripExactlyPlain`);
- the last check of `resolve` decides exactly for the root `/`, where it rejects everything
  (`Local.LastCheckNeverFiresExactly`); a name is accepted exactly if it leads below whatever root it starts
  from (`Local.AcceptsExactly`), so that `../root/x` is rejected though it leads below `/root`
  (`Local.RejectedThoughBelow`);
- a ready dev proxy has an upstream exactly if a target that is not nil was ever set
  (`DevProxy.ReadyProxiesExactlyWithTarget`);
- schema generation ends for every type of a program exactly if its types have no cycle of what a description
  holds without a reference: elements of pointers, lists and maps with string keys, properties of literal
  structs, and embedded structs (`SchemaEnds.GenerationEndsExactly`). A cycle through a named struct that is
  met by its fields alone is one of those: `type E struct { F *struct { E } }`
  (`SchemaEnds.EmbeddedCycleNeverEnds`);
- every subscriber of a hub is one of its clients, all along a run, exactly if no second locked section of a
  subscribe takes effect for a client that has left (`HubSafety.SubscribersAreClientsExactly`); a run with one
  that does is `HubSafety.RemovedClientMaySubscribe`.

## Model

| member | source | states |
|---|---|---|
| Diff.LcsTable | internal/cli/udiff.go:73-86 | the table filled in place from the ends holds, at every position, the recursive longest-common-subsequence length of the two remainders |
| Diff.DiffOps | internal/cli/udiff.go:72-112 | the walk over the table emits exactly the script that the recursive definition gives, tie-breaks included |
| Diff.ScriptEdits | internal/cli/udiff.go:89-111 | for all files: kept and deleted lines spell the old one, kept and inserted lines the new one, and every operation carries the line numbers of its place |
| Diff.LcsBound | internal/cli/udiff.go:76-86 | no common subsequence of the two remainders is longer than the table entry |
| Diff.KeepsLongestCommonSubsequence | internal/cli/udiff.go:72-112 | the kept lines are a common subsequence, and no common subsequence is longer |
| Diff.FewestChanges | internal/cli/udiff.go:72-112 | no script that edits one file into the other deletes and inserts fewer lines |
| Diff.KeptIsCommon | internal/cli/udiff.go:61-68 | for every script: kept lines are common to both sides, and changes are the rest of both sides |
| Diff.DeletionsFirst | internal/cli/udiff.go:92-103 | in every script the walk makes, no insertion stands directly before a deletion |
| Patch.LinesJoin | internal/cli/udiff.go:147-156 | splitting into lines loses nothing; every line ends in its one newline, except possibly the last |
| Patch.WriteHunk | internal/cli/udiff.go:115-143 | the in-place text of a hunk: the header with the start and count of either side, then each line with its mark and, where it lacks its newline, the marker below it |
| Patch.LastChange | internal/cli/udiff.go:33-46 | the inner loop ends a hunk at the last change that no run of more than six kept lines separates from the one before |
| Patch.WriteHunks | internal/cli/udiff.go:26-54 | the hunks printed are disjoint and ascending, cover every change, and reach three lines beyond their first and last change, as far as there are lines |
| Patch.ChangesPrintedOnce | internal/cli/udiff.go:21-55 | every change is printed in exactly one hunk, no line is printed twice, a hunk has the three lines around its changes as far as there are any and no seven kept lines in a row, and between the changes of two hunks there are at least seven |
| Patch.UnifiedDiff | internal/cli/udiff.go:12-57 | equal files print nothing; others print the file header and the hunks of their edit script |
| PatchApply.HunksApply | internal/cli/udiff.go:19-143 | an applier that reads only the printed hunks, standing where some operations begin, produces what they produce, forwards and backwards |
| PatchApply.PatchApplies | internal/cli/udiff.go:12-57 | the printed diff, applied to the one file, gives the other, and applied backwards gives the first |
| PatchApply.DiffAndPatch | internal/cli/udiff.go:12-57 | the same for the text that the method prints, for any two files; different files print two lines that name them, a/ and b/ in front, and a hunk |
| PatchApply.DiffBegins | internal/cli/udiff.go:20 | the printed diff of different files is the line `--- a/name`, the line `+++ b/name`, and then a hunk |
| Like.EscapedMatchesLiterally | runtime/query/sql.go:10 | an escaped text matches itself at the front of a text and nothing else, whatever follows |
| Like.PatternMeansContains | runtime/query/sql.go:10-29 | the bound pattern matches exactly the texts that contain the search text, with wildcards and escape characters in either |
| Query.FilterKeyRead | runtime/query/query.go:213-255 | a parameter key is read as a filter name and an operator exactly if it is written from them |
| Query.SplitNonEmptyLoop | runtime/query/query.go:399-408 | the trimmed non-empty parts, in order |
| Query.CollectFilters | runtime/query/query.go:233-239 | refuses a filter on a column that is no identifier, and otherwise keeps the last filter of each name |
| Query.CollectSorts | runtime/query/query.go:240-246 | the same for sorts |
| Query.ParseFilters | runtime/query/query.go:251-277 | in whatever order the parameters are met: the accepted filters are those of the good parameters, once each, and the keys rejected are those of the offending ones, once each |
| Query.ParseSorts | runtime/query/query.go:279-295 | the sorts of the known fields in order, and the unknown fields as they are reported; an unknown field of the default sort is a configuration mistake |
| Query.ParsePages | runtime/query/query.go:297-312 | absent or an integer of at least one, the page size capped; anything else is reported |
| Query.ParseCursor | runtime/query/query.go:322-335 | the decoded cursor, and in cursor mode a report of sort, page and a cursor that cannot be read |
| Query.OffendsExactly | runtime/query/query.go:338-345 | the report is empty exactly if nothing in the request offends |
| Query.Parse | runtime/query/query.go:226-347 | misconfigured exactly if the options are unusable; rejected exactly if some parameter offends, with a report that lists exactly the offenders; otherwise the result describes the request |
| Sql.BuiltIsSound | runtime/query/query.go:350-392 | an accepted parameter has the number of values its operator needs, and booleans where the filter is boolean |
| RequestMeaning.BuildsExactly | runtime/query/query.go:350-392 | a parameter is accepted exactly if its operator fits the kind of filter, a list has 1 to 100 values, and the values of a boolean filter are booleans |
| RequestMeaning.FilterMeans | runtime/query/query.go:350-392 | the filter value built selects the rows that the filter's kind and the operator in the key ask for |
| RequestMeaning.RequestMeans | runtime/query/query.go:251-277 | an accepted request selects exactly the rows that each parameter filter[name] or filter[name][operator] asks for, read off the text of its key |
| Query.FilterTableHolds | runtime/query/query.go:233-239 | the filter kept for a name is the last one declared with it |
| Query.SortTableHolds | runtime/query/query.go:240-246 | the same for sorts |
| RequestMeaning.SortsMean | runtime/query/query.go:279-320 | the sorts of an accepted request: for each field of the parameter, or of the default, the column of the last sort declared under its name, descending exactly with a minus sign in front; in cursor mode the cursor column and the id in the direction of the default sort |
| RequestMeaning.PagesMean | runtime/query/query.go:219-312 | the page of an accepted request is the integer given, or 1; the page size is the integer given up to the maximum, which is then the size, and without one the default; maximum and default below one are 100 and 25 |
| RequestMeaning.CursorMeans | runtime/query/query.go:314-336 | the cursor of an accepted request: in cursor mode the one given, as it is decoded, and otherwise none |
| RequestMeaning.ListOfOne | runtime/query/query.go:399-408 | a text without a comma is a list of one, or of none if it is blank |
| RequestMeaning.ListOfMore | runtime/query/query.go:399-408 | a list is read at its commas, each part without the white space around it, blank parts left out |
| RequestMeaning.FitsExactly | runtime/query/query.go:251-347 | a request is rejected exactly if a filter key, a filter value, a sort field, a page number or the cursor does not fit: the reasons one by one, read off the request |
| RequestMeaning.ReportExactly | runtime/query/query.go:251-345 | the report of a rejected request names exactly the parts that do not fit, sort fields as sort=field |
| Sql.ParsedIsSound | runtime/query/query.go:226-392 | every result Parse can return has identifier columns, the right number of values for every operator, positive page numbers, and the two sorts of cursor mode |
| Sql.OneCondition | runtime/query/sql.go:22-40 | the condition of one filter and its arguments, the list of placeholders built by repeating and trimming |
| Sql.WhereSQL | runtime/query/sql.go:16-42 | the conditions joined by AND, with their arguments in the same order |
| Sql.OrderSQL | runtime/query/sql.go:45-58 | the sort fields with their directions, or nothing |
| Sql.BuildSQL | runtime/query/sql.go:62-70 | the appended text and arguments of an offset page, the offset wrapped to 64 bits |
| Sql.AppendWhere | runtime/query/sql.go:74-86 | the appended text and arguments of a count |
| Sql.BuildCursorSQL | runtime/query/cursor.go:90-109 | the appended text and arguments of a cursor page: filters, keyset bound, order and limit |
| Sql.CursorLimitProbesExactly | runtime/query/cursor.go:68 | the limit leaves room for the probe row exactly if the page size is below the largest integer |
| SqlReader.AtomReads | runtime/query/sql.go:21-40 | the grammar reads one condition back with its own arguments, whatever follows |
| SqlReader.KeysetReads | runtime/query/cursor.go:73-84 | the keyset text is read as a comparison of the sort column, or of the id where the columns are equal |
| SqlMeaning.BuildSQLMeans | runtime/query/sql.go:62-70 | what BuildSQL appends is read back, all arguments bound and none left, as a statement that selects exactly the rows meeting every filter, with the sorts, limit and offset |
| SqlMeaning.BuildCountSQLMeans | runtime/query/sql.go:74-86 | the same for a count: the filters and nothing else |
| SqlMeaning.BuildCursorSQLMeans | runtime/query/cursor.go:73-109 | a cursor statement selects exactly the rows that meet every filter and lie beyond the cursor |
| SqlMeaning.AsManyPlaceholdersAsArgs | runtime/query/sql.go:16-86 | each of the three statements has as many placeholders as arguments |
| SqlMeaning.AnyFilterOrder | runtime/query/query.go:245-277 | the rows that an accepted request selects do not depend on the order in which its filters were met |
| Walk.VisitIsPage | runtime/query/cursor.go:68-121 | any answer the database may give to the cursor statement, trimmed by NextCursor, is a page of the rows beyond the cursor, with a token exactly if there is more; the largest integer as page size, whose limit is negative, gets no answer |
| Walk.SameListing | runtime/query/query.go:226-347 | accepted requests that differ only in their cursor have the same sorts, page size and filter meaning |
| Walk.NoKeyTwice | runtime/query/cursor.go:68-121 | a walk over a table that changes between pages ascends by (sort value, id) and returns no key twice |
| Walk.ListedThroughoutReturnedOnce | runtime/query/cursor.go:68-121 | a key that is in the table at every request of a finished walk is returned exactly once |
| Walk.FixedTable | runtime/query/cursor.go:68-121 | on a fixed table a walk ends after max(1, ceil(n / page size)) pages with the whole sorted filtered table |
| Database.TotalOrderExists | runtime/query/cursor.go:68-84 | there is a strict total order of all values, as a walk takes the database to have |
| Database.CodecExists | runtime/query/cursor.go:24-58 | there are an encoding and a decoding of cursors as a walk takes them |
| Database.VisitExists | runtime/query/cursor.go:68-121 | whatever the table is at the time, a request of a walk can be served with an answer, a page and a token, exactly if its page size is below the largest integer |
| Doubles.RoundBetweenWholes | runtime/query/query.go:205-211 | below 2^53 the nearest double of a number between two whole numbers lies between them |
| Pages.TotalPagesIsCeiling | runtime/query/query.go:205-211 | for every total up to 2^53 and every page size, the page count computed in doubles is the integer ceiling |
| Pages.CeilingHoldsExactlyUpTo | runtime/query/query.go:205-211 | the page count is right for every page size and all totals up to a bound exactly if the bound is at most 2^53 |
| Pages.CeilingFailsAbove | runtime/query/query.go:205-211 | 2^53 + 1 rows, one a page: the computed count misses the last page, so the bound is sharp |
| Pages.WindowsPartition | runtime/query/query.go:190-211 | for up to 2^53 rows: no offset up to the last page overflows, every row is in the window of exactly one page, and the last window is not empty; the metadata repeat page, page size and total |
| Hub.Hub.constructor | runtime/realtime/realtime.go:84-99 | an empty open hub whose buffer is the option, or 16 if that is not positive |
| Hub.Hub.Register | runtime/realtime/realtime.go:118-133 | adds a channel under the trimmed name, or reports, in this order, an empty name, a registered name, a closed hub |
| Hub.Hub.Add | runtime/realtime/realtime.go:354-362 | adds the client, except to a closed hub |
| Hub.Hub.Lookup | runtime/realtime/realtime.go:366-372 | the first locked section of subscribe |
| Hub.Hub.Subscribe | runtime/realtime/realtime.go:376-388 | the second locked section of subscribe: it checks that the hub is open and the channel registered, and not whether the client is still one of the hub's |
| Hub.Hub.Unsubscribe | runtime/realtime/realtime.go:391-397 | takes the client out of that channel alone |
| Hub.Hub.Snapshot | runtime/realtime/realtime.go:138-157 | every subscriber of the channel once, or the error |
| Hub.Hub.Remove | runtime/realtime/realtime.go:402-407 | the client leaves the hub and every channel, and nothing else changes |
| Hub.Hub.StartClose | runtime/realtime/realtime.go:314-320 | closes the hub and takes every client once |
| Hub.Outbound.Enqueue | runtime/realtime/realtime.go:464-476 | refuses exactly if done is closed or the queue is full; otherwise appends |
| Hub.Outbound.TrySend | runtime/realtime/realtime.go:470-475 | appends unless the queue is full, and never waits |
| Hub.Outbound.Close | runtime/realtime/realtime.go:408 | closes a channel that is open; closing it again would panic |
| Hub.SectionsKeep | runtime/realtime/realtime.go:118-407 | no locked section unregisters a channel, changes whether it is private, or reopens the hub |
| Hub.SectionErrors | runtime/realtime/realtime.go:118-388 | which error register and the second section of subscribe answer with, the first that applies; add succeeds exactly on an open hub |
| HubSafety.StepKeeps | runtime/realtime/realtime.go:118-476 | every locked section and channel operation of any goroutine keeps the invariant of clients, channels, queues and closing |
| HubSafety.QueueBounded | runtime/realtime/realtime.go:464-476 | in every interleaving, a queue never holds more than its buffer |
| HubSafety.QueueIsFifo | runtime/realtime/realtime.go:464-476 | sends and receives of the step model are those of a bounded first-in-first-out queue |
| HubSafety.DoneClosesOnce | runtime/realtime/realtime.go:400-410 | in every interleaving, done is closed at most once, and only after the client left the hub |
| HubSafety.PrivateSubscribersAuthorized | runtime/realtime/realtime.go:365-388 | in every interleaving, each subscriber of a private channel was allowed by its AuthFunc at an earlier step, when the channel was private |
| HubHistory.ChannelsExactly | runtime/realtime/realtime.go:118-133 | the channels of the hub are the trimmed names whose first registration came before Close, each private exactly if that registration said so |
| HubHistory.ClientsExactly | runtime/realtime/realtime.go:354-407 | the clients of the hub are those added before Close and not removed since |
| HubHistory.CallExactly | runtime/realtime/realtime.go:365-388 | how far a subscribe call has come, read off the steps of its client and the registrations |
| HubHistory.SubscribersExactly | runtime/realtime/realtime.go:365-407 | the subscribers of a channel are the clients with a subscribe call that looked it up, was let in and took effect before Close, and that have neither unsubscribed nor been removed since |
| HubHistory.PrivateWasAllowed | runtime/realtime/realtime.go:118-388 | a channel first registered as private stays so, and every subscriber of it was allowed by the AuthFunc after looking it up |
| HubHistory.PublicLetsIn | runtime/realtime/realtime.go:118-388 | a channel first registered as public lets in whoever looks it up |
| HubHistory.IncludedExactly | runtime/realtime/realtime.go:138-157 | what Publish snapshots mean for a client: every event on a channel it subscribes to at that moment, in order |
| HubSafety.NoClientAfterClose | runtime/realtime/realtime.go:312-362 | once Close has returned, the hub has no client and none can be added, whatever happens later |
| HubSafety.ClosedTakesNothing | runtime/realtime/realtime.go:464-476 | once the done channel of a client is closed, and nobody is past the first select of enqueue with something for it, nothing is ever put into its queue |
| HubSafety.RemovedClientMaySubscribe | runtime/realtime/realtime.go:365-410 | such runs exist: a client removed between the two locked sections of its subscribe stays in the set of the channel |
| HubSafety.SubscribersStayClientsExactly | runtime/realtime/realtime.go:118-410 | where every subscriber is a client, a step keeps that exactly if it is not a second locked section of subscribe that takes effect for a client that has left |
| HubSafety.SubscribersAreClientsExactly | runtime/realtime/realtime.go:366-407 | in every state of a run every subscriber is a client, exactly if the run has no such step |
| HubDelivery.GapFreePrefix | runtime/realtime/realtime.go:147-476 | if the Publish calls to a channel do not overlap, what a queue was ever given of the channel, and what was received of that, is a gap-free prefix of the events whose snapshot held the client |
| HubDelivery.NothingMissing | runtime/realtime/realtime.go:147-476 | and between those calls a client whose done is open has been given all of them |
| HubDelivery.FirstRefusalIsFinal | runtime/realtime/realtime.go:147-410 | the first refused event of a channel ends its delivery to that client for good |
| HubOverlap.NothingExtra | runtime/realtime/realtime.go:138-165 | in every interleaving, overlapping Publish calls included, a queue is given no event of a channel more often than that event was published with the client in the snapshot |
| Order.Sorted | internal/cli/upgrade.go:320-324 | every key once, in lexicographic order |
| Order.ListingUnique | internal/cli/upgrade.go:320-324 | there is only one such order, so map iteration cannot show in the file |
| Order.BeforeMeans | internal/cli/upgrade.go:320-324 | one text comes before another exactly if it is a beginning of it or smaller where they first differ |
| Baseline.ReadBaseline | internal/cli/upgrade.go:292-316 | blank lines are skipped, two fields make an entry, anything else is an error with its line number; no file means no entries |
| Baseline.BaselineReads | internal/cli/upgrade.go:292-316 | a text is read exactly if each line is blank or a hash, white space and a path; the first other line is reported by its number, and the last entry of a path counts |
| Baseline.WriteBaseline | internal/cli/upgrade.go:319-337 | one line for each path, in order |
| Baseline.BaselineLooks | internal/cli/upgrade.go:319-337 | the text is hash, two spaces, path and newline for each path in ascending order |
| Baseline.WrittenIsRead | internal/cli/upgrade.go:292-337 | what is written is read back, for whitespace-free paths and hashes |
| Baseline.RoundTripExactlyPlain | internal/cli/upgrade.go:292-337 | it is read back exactly if no path is empty or holds white space |
| Upgrade.LawfulToolsExist | internal/cli/upgrade.go:266-290 | what is taken for granted of gofmt and SHA-256 is consistent |
| Upgrade.NormalizeIdempotent | internal/cli/upgrade.go:266-276 | normalizing twice is normalizing once |
| Upgrade.Project.Plan | internal/cli/upgrade.go:133-193 | one entry for each rendered file and each file under internal/platform, sorted by path, with its status; an unreadable baseline is an error |
| Upgrade.Project.FindEntries | internal/cli/upgrade.go:144-190 | the two loops of the plan, in any order, find the entry of each path |
| Upgrade.Choose | internal/cli/upgrade.go:200-212 | what is written and what is skipped, with and without --force |
| Upgrade.Stage | internal/cli/upgrade.go:213-227 | every file to be written is staged whole before any is renamed |
| Upgrade.Project.Refresh | internal/cli/upgrade.go:245-256 | the loop records each rendered file that matches the disk |
| Upgrade.Project.Apply | internal/cli/upgrade.go:199-261 | the files, the baseline, and the applied and skipped paths after an apply that runs to the end, stops at any rename, or fails to write the baseline |
| UpgradeEffect.UpgradeCommand | internal/cli/upgrade.go:73-87 | plan and apply together leave the project as the path-by-path description says, interrupted or complete, and report the updated and the skipped paths |
| UpgradeEffect.ApplyFiles | internal/cli/upgrade.go:200-241 | path by path: the render where the status calls for a write, and otherwise the file that was there |
| UpgradeEffect.ApplySums | internal/cli/upgrade.go:241-256 | the refreshed baseline records exactly the rendered files that match the disk |
| UpgradeEffect.InterruptedLeavesOldOrRendered | internal/cli/upgrade.go:228-240 | an apply stopped between two renames leaves each file old or fully rendered |
| UpgradeEffect.RerunCompletes | internal/cli/upgrade.go:213-260 | planning and applying again then ends with the same files and baseline as an uninterrupted run |
| UpgradeEffect.SecondApplyChangesNothing | internal/cli/upgrade.go:199-261 | a second apply writes no file and leaves the baseline's text as it is |
| UpgradeMeaning.StatusMeans | internal/cli/upgrade.go:133-172 | what each status of the plan says of the file on disk, its render and its baseline entry |
| UpgradeMeaning.PlanLists | internal/cli/upgrade.go:144-190 | the plan lists exactly the rendered files and the files below internal/platform, in order |
| UpgradeMeaning.AppliedExactly | internal/cli/upgrade.go:200-241 | written are exactly the rendered files that are missing, or that differ by more than formatting and are forced or have their hash in the baseline |
| UpgradeMeaning.SkippedExactly | internal/cli/upgrade.go:200-212 | skipped are exactly the other differing ones, and none with --force |
| UpgradeMeaning.FilesExactly | internal/cli/upgrade.go:200-241 | after an upgrade a written file holds its formatted render, every other file is as it was, and there are no others |
| UpgradeMeaning.ForcedIsRendered | internal/cli/upgrade.go:204-209 | after an upgrade with --force every rendered file is there and equals its render, up to formatting |
| UpgradeMeaning.SumsExactly | internal/cli/upgrade.go:241-260 | the baseline read after an upgrade: the hash of each rendered file that equals its render up to formatting, and otherwise what it was |
| UpgradeRuns.WriteBaselineFromDisk | internal/cli/upgrade.go:341-370 | the baseline of a new project: the hash of every file under internal/platform, and no file at all if there is no such directory |
| UpgradeMeaning.ScaffoldedExactly | internal/cli/upgrade.go:341-370 | the baseline of a new project has exactly the files below internal/platform, each with the hash of its formatted content |
| UpgradeRuns.BaselineIsTruthful | internal/cli/upgrade.go:145-337 | over any sequence of CLI versions, edits and applies, forced and interrupted ones included, every baseline entry is the hash of something some version rendered for that path |
| UpgradeRuns.EditsSurvive | internal/cli/upgrade.go:157-213 | over any history, an apply without --force deletes nothing and overwrites only contents that some version rendered for that path, up to gofmt |
| DevProxy.Proxy.SetState | internal/cli/devproxy.go:54-65 | the new state, target and proxy; the current channel is closed, and was open, and a new one takes its place |
| DevProxy.Proxy.constructor | internal/cli/devproxy.go:48-50 | building, without target, with one open channel |
| DevProxy.Proxy.SetBuilding | internal/cli/devproxy.go:68 | keeps target and proxy, clears the output, wakes every held request |
| DevProxy.Proxy.SetReady | internal/cli/devproxy.go:71 | takes the target, clears the output, wakes every held request |
| DevProxy.Proxy.SetFailed | internal/cli/devproxy.go:74 | keeps target and proxy, takes the output, wakes every held request |
| DevProxy.StepKeeps | internal/cli/devproxy.go:54-113 | every step keeps: what a request read is current if its channel is, and otherwise that channel is closed |
| DevProxy.NoLostWakeup | internal/cli/devproxy.go:77-113 | in every run, a waiter whose channel is current saw the current state, which is building; any other waiter can wake |
| DevProxy.HeldRequestGoesOn | internal/cli/devproxy.go:77-113 | a request held during a rebuild can go on once it is over, and is answered as the new state wants |
| DevProxy.ServedExactly | internal/cli/devproxy.go:77-113 | in every run a request is proxied to the last target after a ready state, answered with the output set last after a failed one, and during a build held until its deadline or timed out |
| DevProxy.HeldUntilDeadline | internal/cli/devproxy.go:96-113 | a held request times out exactly when its time is over, and one that its client gives up is not answered |
| DevProxy.NeverHeldPastDeadline | internal/cli/devproxy.go:78-110 | no request is held past its one deadline, however often the state flips, and none is held again after it |
| DevProxy.DeadlineIsFixed | internal/cli/devproxy.go:78 | no step changes the deadline of a request |
| DevProxy.ReadyProxiesExactlyWithTarget | internal/cli/devproxy.go:58-90 | in a ready state a request goes to the last target set that was not nil, and fails exactly if there was none |
| DevProxy.ReadyWithoutTarget | internal/cli/devproxy.go:58-88 | a first SetReady(nil) leaves a ready proxy without upstream |
| Schema.ExpectedStays | runtime/openapi/schema.go:26-81 | the schema of a type does not change when more types get names |
| Schema.ExpectedRefs | runtime/openapi/schema.go:26-81 | every reference in the schema of a type is to the component of a named type |
| SchemaMeaning.SchemaSays | runtime/openapi/schema.go:26-81 | kind by kind: the type and format of the schema of a type, what it holds, the reference of a named struct, and a pointer as nullable |
| SchemaMeaning.FieldSays | runtime/openapi/schema.go:120-141 | what a field adds: nothing if it is not exported or its json tag is `-`, all fields of an embedded struct other than time.Time, or a property under its tag name or its own |
| SchemaMeaning.TokenSays | runtime/openapi/schema.go:149-176 | what each token of a validate tag does to the schema of its field |
| SchemaMeaning.RequiredSays | runtime/openapi/schema.go:153-156 | the field is named once for each `required` in its tag |
| SchemaMeaning.ObjectSays | runtime/openapi/schema.go:120-145 | an object has under each name the schema of the last property with it, constrained by the tokens of its tag one after the other, and requires each name as often as tags ask for it |
| Schema.EmbeddedCycleHasNoRanks | runtime/openapi/schema.go:120-129 | a type graph whose only cycle passes through an embedded named struct: no termination measure covers it |
| Schema.SelfReferenceIsRanked | runtime/openapi/schema.go:66-77 | a named struct that points to itself, which the measure does cover |
| SchemaEnds.GenerationEndsExactly | runtime/openapi/schema.go:26-145 | generation ends for every type of a program exactly if no call of it leads back to itself, through what descriptions hold without a reference and through embedded structs |
| SchemaEnds.AcyclicEnds | runtime/openapi/schema.go:26-145 | without such a cycle, a depth is enough for every type |
| SchemaEnds.CycleDoesNotEnd | runtime/openapi/schema.go:26-145 | with such a cycle, generation for the type it starts at does not end |
| SchemaEnds.LoopNeverEnds | runtime/openapi/schema.go:26-145 | calls that each lead to another of them do not end, whatever was seen and for every depth |
| SchemaEnds.RanksExistExactly | runtime/openapi/schema.go:26-145 | the measure by which the methods are shown to end exists exactly for the graphs without such a cycle |
| SchemaEnds.EmbeddedCycleNeverEnds | runtime/openapi/schema.go:120-129 | type E struct { F *struct { E } }: generation ends for none of its types, for every depth |
| SchemaEnds.IntegerMapIsRanked | runtime/openapi/schema.go:54-58 | type T map[int]T: an object at once, and so within the measure |
| Generator.TakenNames | runtime/openapi/schema.go:96-101 | a finite map cannot take all numbered names, so the search for a free one ends |
| Generator.ComponentName | runtime/openapi/schema.go:84-102 | a free name: the capitalized one, else the qualified one, else the first free numbered one from 2 on |
| SchemaMeaning.QualifiedSays | runtime/openapi/schema.go:84-111 | the qualified name: the last element of the package path without hyphens, underscores and dots, and the name, both capitalized |
| SchemaMeaning.CapitalizedSays | runtime/openapi/schema.go:84-86 | the first letter of a name becomes a capital one and the rest stays |
| Generator.Traversal.SchemaForType | runtime/openapi/schema.go:26-81 | ends on every graph that has ranks, which are those without a cycle, replaces no component, gives new types new names, stores under each the component that describes its type, and returns the schema that the final names determine; the types it has seen then are those of the bounded traversal |
| Generator.Traversal.NamedSchema | runtime/openapi/schema.go:70-77 | reserving the name first makes a type that refers to itself end, and the reserved slot is filled |
| Generator.Traversal.Reserve | runtime/openapi/schema.go:73-76 | reserves a free name, after which fewer named structs are unseen |
| Generator.Traversal.StructSchema | runtime/openapi/schema.go:113-117 | the object with the properties of all fields, their constraints and the names they require |
| Generator.Traversal.AddField | runtime/openapi/schema.go:121-144 | what one field adds: nothing, the fields of an embedded struct, or one property, a plain string if the tag quotes it, with the constraints of its validate tag |
| Generator.Traversal.AddStructFields | runtime/openapi/schema.go:120-145 | adds the properties of the flattened exported fields in order, later ones replacing earlier ones of the same name, and the names they require |
| Generator.ApplyValidateTag | runtime/openapi/schema.go:149-176 | one constraint after another: the name once for each required, and lengths and choices where the schema is a string |
| OpenApi.TraversalCompletes | runtime/openapi/schema.go:15-23 | after a whole call, every component is there and every reference in a component resolves |
| OpenApi.SchemaRefs | runtime/openapi/schema.go:15-23 | a schema that describes a type refers to components only |
| OpenApi.SchemaFor | runtime/openapi/schema.go:15-23 | the returned schema describes the type by way of the component map, in which distinct types have distinct names |
| OpenApi.QueryParameters | runtime/openapi/openapi.go:372-395 | one parameter for each exported field with a form name, each with the schema of its field, required exactly if the validate tag says so |
| OpenApi.ObjectFor | runtime/openapi/openapi.go:284-369 | the operation object has the schemas of its request, parameters and response, and an Error reference under each error status |
| OpenApi.ParametersFor | runtime/openapi/openapi.go:300-325 | the query struct's parameters, then those of filters, sort and pages |
| OpenApi.ResponsesFor | runtime/openapi/openapi.go:327-367 | the enveloped success response, unless an error has its status, and an Error reference under each error status |
| OpenApi.AddErrors | runtime/openapi/openapi.go:364-367 | an Error reference under each error status, replacing the success response of the same status, and every other response as it was |
| DocumentMeaning.ResponsesMean | runtime/openapi/openapi.go:327-367 | the responses of an operation, status by status: the success body in its envelope, and a reference to Error under 500 and each status its request, query, security and error codes can fail with |
| DocumentMeaning.ParametersMean | runtime/openapi/openapi.go:300-395 | the parameters of an operation: one for each exported field of its query struct with a form name, then its filters, sort, page and per_page, by their names and types |
| DocumentMeaning.StatusIs | runtime/openapi/openapi.go:120-146 | the status of an error code: its own, or 404 for codes that end in _not_found, or 400 |
| DocumentMeaning.ErrorSays | runtime/openapi/openapi.go:408-424 | the fields of the Error component and the two that are required |
| DocumentMeaning.MetaSays | runtime/openapi/openapi.go:427-437 | the four integers of the Meta component |
| OpenApi.StatusesOf | runtime/openapi/openapi.go:350-364 | exactly the statuses of the errors the operation can answer with |
| OpenApi.SeedIsComplete | runtime/openapi/openapi.go:171-437 | the pre-inserted Error and Meta make a complete component map |
| Routes.SortRoutes | runtime/openapi/openapi.go:177-183 | the same routes in order of path and then method |
| Routes.SortedInOrder | runtime/openapi/openapi.go:177-183 | sorting keeps every route as often as it occurs and leaves none out of order |
| Routes.SortedByPath | runtime/openapi/openapi.go:177-183 | no later route has a path that comes before, nor for the same path such a method |
| Routes.ConvertPath | runtime/openapi/openapi.go:240-251 | the path with each parameter segment in braces, and the names of the parameters in order |
| Routes.SegmentsConverted | runtime/openapi/openapi.go:240-251 | the converted path has as many segments as the path, each changed by itself |
| OpenApi.AttachEntry | runtime/openapi/openapi.go:192-214 | the object, with its path parameters in front, takes the place of its method in the item of its path, which is made if it is not there |
| OpenApi.PathsRefs | runtime/openapi/openapi.go:183-215 | every reference in the paths is to a component, if those of the operation objects are |
| OpenApi.Registry.Build | runtime/openapi/openapi.go:150-222 | ends on every graph without a cycle; every reference in the document resolves to a component that is there, Error and Meta are never replaced, and the paths are those of the documented routes in sorted order, each with its path parameters and the object of its last description |
| DocumentMeaning.DocumentShows | runtime/openapi/openapi.go:150-222 | the paths of a document, method by method: the object of the last shown route that converts to the path, with its path parameters in front, where an object is that of the last description of its route |
| DocumentMeaning.FieldsExactly | runtime/openapi/openapi.go:183-215 | a path is there exactly if a shown route converts to it, and each of get, post, put, patch and delete exactly if one with that method does; other methods show nothing |
| DocumentMeaning.ShownExactly | runtime/openapi/openapi.go:183-237 | a route is shown exactly if neither its path nor a prefix of it is excluded and its last description does not hide it |
| DocumentMeaning.ConvertsExactly | runtime/openapi/openapi.go:240-251 | the path of a route in a document: segment by segment, with braces for those that begin with a colon or an asterisk |
| OpenApi.Registry.Describe | runtime/openapi/openapi.go:83-87 | appends the operations |
| OpenApi.Registry.DescribedMap | runtime/openapi/openapi.go:156-159 | the operation described last for each method and path |
| RateLimit.RateLimiter.constructor | runtime/ratelimit.go:50-65 | the burst is the option, or a quarter of the rate, and at least 1 |
| RateLimit.RateLimiter.Admit | runtime/ratelimit.go:70-87 | the decision and the client map after one request, with the eviction loop |
| RateLimit.RateLimiter.Evict | runtime/ratelimit.go:81-85 | exactly the clients idle for over ten minutes are deleted |
| RateLimit.EvictsFromCrowds | runtime/ratelimit.go:80-87 | nobody is evicted from 10000 clients or fewer, and from more exactly those last seen over ten minutes ago |
| RateLimit.IdleIsFreshExactly | runtime/ratelimit.go:50-82 | a bucket idle for over ten minutes is as good as a fresh one, whatever it held, exactly if the burst is at most 10 times the requests per minute |
| RateLimit.EvictionChangesNothing | runtime/ratelimit.go:70-87 | then eviction changes no decision in any run |
| RateLimit.EvictionIsInvisibleExactly | runtime/ratelimit.go:70-87 | and for a larger burst there is a run in which it does |
| RateLimit.DefaultBurstIsSmall | runtime/ratelimit.go:51-54 | the default burst of a positive rate is small enough |
| RateLimit.WindowBound | runtime/ratelimit.go:70-87 | any window of T seconds lets through at most burst + rate * T requests of a client, across evictions |
| RateLimit.LetThroughExactly | runtime/ratelimit.go:70-87 | a request is let through exactly if no window that ends with it would then hold more than burst + rate * T requests of its client |
| Local.CleanKeepsWalk | runtime/storage/local.go:49 | cleaning a relative name does not change where it leads, from any directory |
| Local.AcceptedIsConfined | runtime/storage/local.go:42-57 | an accepted name yields a path strictly under the root, without empty, `.` or `..` segments below it: the one its lexical walk leads to |
| Local.AcceptsExactly | runtime/storage/local.go:42-57 | for a root other than `/`, accepted are exactly the non-empty names without a leading slash, a NUL or a backslash whose lexical walk ends strictly below whatever root it starts from |
| Local.ErrorsExactly | runtime/storage/local.go:42-57 | which error a rejected name gets: malformed, absolute, or not below every root |
| Local.LastCheckNeverFiresExactly | runtime/storage/local.go:53-56 | the final prefix check never decides, exactly if the root is not `/`; there it rejects every name |
| Local.RejectedThoughBelow | runtime/storage/local.go:49-52 | for one particular root, leading below it is not enough to be accepted |
| Cache.Memory.Get | runtime/cache/memory.go:58-66 | the value of a key that is stored and not expired |
| Cache.Memory.Set | runtime/cache/memory.go:69-78 | the new map: the value with its expiry, or without one for a ttl that is not positive |
| Cache.Memory.Forget | runtime/cache/memory.go:81-86 | the map without the key |
| Cache.Memory.Increment | runtime/cache/memory.go:89-108 | the new map and count: an empty value counts as zero, one that is not a number is an error and changes nothing, sums wrap at 64 bits |
| Cache.Memory.Sweep | runtime/cache/memory.go:125-131 | exactly the expired entries are deleted |
| Cache.CachedIsPlain | runtime/cache/memory.go:58-136 | each operation does to the live entries what it does on a plain map; a sweep does nothing to them |
| Cache.CacheAnswersLikePlainMap | runtime/cache/memory.go:58-136 | under a clock that does not go back, every answer is that of a plain map without any sweep |
| Cache.GetAfterSet | runtime/cache/memory.go:58-78 | whatever other keys and sweeps do in between, a value that was set is read until its time to live is over, and for good without one |
| Cache.GetAfterForget | runtime/cache/memory.go:58-86 | a forgotten key, and one never touched, is not found |
| Cache.IncrementAfterSet | runtime/cache/memory.go:69-108 | an increment goes on from the number that was set while it is live, and otherwise from zero |
| Cache.IncrementOfText | runtime/cache/memory.go:89-103 | a live text that is no number is not counted on, and stays |
| Cache.GetAfterIncrement | runtime/cache/memory.go:58-108 | the count is read back until the value before it would have expired |
| Cache.IncrementsAdd | runtime/cache/memory.go:89-108 | two increments are one, the live expiry stays, and an expired counter restarts from zero without expiry |
| Numbers.ParseFormat | runtime/cache/memory.go:97-106 | the decimal print of any 64-bit integer is parsed back |
| Numbers.ParseDigits | runtime/cache/memory.go:97-101 | a sign, if any, and digits are read as their number exactly if that has 64 bits |
| Numbers.ParsedIsDigits | runtime/cache/memory.go:97-101 | nothing else is read |
| Rings.Ring.Add | runtime/devtools/ring.go:51-57 | overwrites one slot of the array and keeps every entry that is still retained |
| Rings.Ring.Snapshot | runtime/devtools/ring.go:60-69 | exactly the newest min(n, capacity) entries, newest first, with consecutive ids |
| Rings.Ring.Find | runtime/devtools/mail.go:63-70 | finds exactly the ids that the snapshot shows, and the entry added under that id |
| Rings.RetainedExactly | runtime/devtools/mail.go:63-70 | an id is retained exactly if it is one of the newest, and its entry is the one that was added |
| Rings.NewestAfterAdd | runtime/devtools/ring.go:51-57 | one more entry pushes the oldest out of a full buffer and nothing else |
| Rings.Ring.constructor | runtime/devtools/devtools.go:63-74 | an empty buffer; a capacity below 1 becomes the default |

## Left out

- HTTP, WebSocket and SSE input and output, JSON, base64, gofmt and SHA-256 themselves: the cursor codec is taken as injective with non-empty tokens, gofmt as idempotent where it succeeds, SHA-256 as injective with whitespace-free digests.
- Different gofmt versions in different CLI versions: one gofmt serves a whole history.
- Edits of `.gin-kit.sum` by hand (its deletion is modelled), staging directories, file permissions and other input and output errors than a failing rename or a failing write of the baseline.
- SQL NULL, collation and driver formats: sort values have a strict total order and ids are unique; a statement is read with SQL's grammar for the clauses the builder writes only.
- Query.FilterKeyRead: the two regular expressions for keys and identifiers are written out as functions.
- Walk.VisitIsPage: sort values and ids are texts, as they are in a cursor; how a database converts the text of a cursor to the type of another column is not modelled.
- HubDelivery.GapFreePrefix: of two overlapping Publish calls to one channel, the order of delivery is not determined; HubOverlap.NothingExtra says what holds then.
- The hub's goroutine for pings and its writers appear as the steps they take on the shared state; fairness, and so that a removed client is eventually removed, is not modelled.
- DevProxy.NeverHeldPastDeadline: timers fire on time and reading the clock and arming a timer is one step.
- OpenApi.Registry.Build: info, servers, security schemes and the security of an operation have no component schemas and are not modelled; on a type graph with a cycle it need not end (SchemaEnds.CycleDoesNotEnd), and nothing is claimed.
- OpenApi.ObjectFor: leaves out the summary, the description and the tags of an operation, and that it needs security.
- OpenApi.ParametersFor: leaves out the descriptions of parameters.
- OpenApi.ResponsesFor: leaves out the descriptions of responses.
- Upgrade.Project.Apply: a failure while a file is staged, before which nothing was renamed, is not modelled.
- RateLimit.RateLimiter.Admit: reads the clock once, where the code reads it again inside Allow; tokens are real numbers, and requests arrive in the order of their times.
- Storage names are taken as path.Clean sees them; symbolic links and the disk operations themselves are not modelled.
- Cache.Memory.Get: looks up and checks the expiry at one time; the code does so in two steps.
- Rings.Ring.Add: the id counter is unbounded; the two rings of the source share one generic model.
