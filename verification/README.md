# iiiu-nav, modelled and proved in Dafny

iiiu-nav is a self-hosted start page: a Go backend keeps categories of links in SQLite, imports and
exports bookmarks, writes and restores backups, limits logins, and updates itself through a separate
executor beside Docker. This project models the parts of that backend where a mistake loses data or
leaves the installation half changed, and proves what those parts are for.

`dafny verify dfyconfig.toml` checks everything.

## The parts

**The navigation store** (`Navigation`, `NavigationRows`, `NavigationStore`, on `Listings` and `Sets`).
The tables hold rows with integer sort orders; the abstract object is a list of categories, each with a
list of links. `View` gives the list a set of tables stands for, `ViewUnique` says there is only one.
`Store` is the class with the source's operations. Each operation is proved to be one list operation:
append, edit in place, remove, move the links of a category behind those of another, permute. A
transaction works on its own copy of the tables; a statement that fails leaves the tables as they were.

**Bookmarks** (`Bookmarks`, `BookmarkParser`, `BookmarkFolders`, `BookmarkPreview`, `BookmarkImport`,
`ImportLedger`, `BookmarkCommit`, `BookmarkExport`). The streaming parser of bookmark files is proved to flatten
the folder tree, and each category to hold the links of its folders; the normalisation to be the one stable
merge by key; the preview to say of every link what it is. The transaction that imports a batch is proved to
compute a fold over lists (`Import`), and that fold to have a closed form (`ImportLedger`): which links are made,
moved or skipped, under which ids, where each ends up and what is reported. About the fold the rest is proved:
what the preview announces happens, importing again creates nothing, what the batch does not name stays in
place, canonical URLs stay unique, every link is counted once, a JSON export imported into an empty store gives
the same list back, and an HTML export what an HTML file can hold of it.

**Restore** (`RestoreMachine`, `RestoreCrash`, `RestoreSwap`, `RestoreAftermath`, `RestoreStartup`,
`RestoreProcess`, `RestoreLimits`). A swap is a chain of single renames, any of which may fail, and the process
may die between any two. `RestoreMachine` is that chain, its undo, the clean-up and the recovery at the next
start as a state machine over single renames, with the invariant that holds in every reachable state.
`RestoreCrash` adds to the invariant where everything is at each point, and with it says exactly when a restart
serves files that belong together, what a recovery brings back, and what a failing rollback loses.
`RestoreSwap` is the recovery of any set of directories in closed form; `RestoreAftermath` applies it to what a
failed rollback has left, `RestoreStartup` to the program's own start, which creates directories first.
`RestoreProcess` is the source's code as methods of a class over the data directory: every state it passes
through is recorded in a ghost trace, and the trace is a run of the machine, so the machine's theorems hold at
every point where a crash can fall. It counts the calls that the system refused, and every one is accounted
for by the answer: without one a swap succeeds and a recovery ends as the closed form says. `RestoreLimits` has
the runs that show where the theorems end.

**Archives** (`Archive`, `ArchiveNames`, `ArchiveExtract`, `Backup`, `BackupRestore`, on `Strings`). Inspection and
extraction are proved to accept exactly the archives that satisfy a declarative condition, which `ArchiveNames`
spells out in characters of names and sizes of entries. A backup written by the other side is accepted exactly
if its upload names are allowed, distinct ignoring case, and everything fits; then extraction gives back the
same files, bytes and directories.

**The login limiter** (`LoginHistory`, `LoginLimiter`). The pruned lists are proved to answer as the whole
history would. The bound on failures is proved for attempts that overlap in any way, in terms of how many
were under way at once since the last reset, and is reached for every number of them; and it is proved exactly
when the limit itself has held.

**The update executor** (`ExecutorMachine`, `ExecutorTrail`, `ExecutorService`). Any number of start requests
interleave with the workers of accepted ones. One worker at a time runs, each finishes exactly once, and what
each reported outcome means, down to every command before it, is proved over all runs; the source's code is a
class whose steps are steps of the machine.

## Findings

Things the code does that a reader may not expect. Each is a lemma here, with the exact condition, and with a
run or an input that shows it.

- The recovery loop does not stop at its first success, against the comment in `recover.go`: the database of
  the last directory it reaches ends up active (`RestoreSwap.LastDatabaseWins`). The newest one does if and
  only if its own uploads are refused, no other directory holds a database, or the last one reached is the
  same (`RestoreSwap.NewestWinsExactly`). With uploads in both directories the recovery even fails with the
  older database and the newer uploads active (`RestoreSwap.OlderDatabaseWins`).
- The program creates the directories for uploads before it recovers, so the active uploads are never empty
  then, and the recovery succeeds if and only if no uploads had been staged
  (`RestoreStartup.StartRecoversExactly`, `RestoreStartup.StartAfterCrash`). Otherwise that start fails with the
  old database back and the old uploads aside (`RestoreStartup.StartFailsOnce`).
- A rollback that fails leaves at risk what only its directory holds: staged uploads, whichever of its moves
  failed, and the database unless it was already back. The deferred removal of the directory then deletes it:
  it is lost if and only if that removal reaches it and the active replacement does not happen to equal it
  (`RestoreCrash.UndoFailureKeepsBoth`, `RestoreCrash.FailedRollbackLosesExactly`,
  `RestoreCrash.ServesAfterFailedRollback`; `RestoreLimits.FailingRollbackLosesDatabase`,
  `RestoreLimits.FailingRollbackLosesBoth`). If a crash cuts the removal, a recovery brings back what it had not
  reached, provided that the database is part of it (`RestoreAftermath.RecoveryAfterFailedRollback`).
- A restart that finds a database recovers nothing. It serves a database with the uploads that belong to it if
  and only if the process did not die at one of these points, or uploads are active and one of the two
  replacements equals what it replaced (`RestoreCrash.RestartServesExactly`): between activating the database
  and the uploads; in a rollback after activating the uploads failed, before the new database was set aside; in
  a rollback that has put the old database back but not yet the uploads; in a recovery likewise. After the
  first, the new uploads are swept away and the old ones stay aside
  (`RestoreLimits.CrashBetweenActivationsDropsUploads`); after the last, they stay aside although the recovery
  had begun (`RestoreLimits.InterruptedRecoveryStrandsUploads`).
- A write-ahead log may still be there after the database was closed. A swap that fails loses it exactly if the
  failure falls between staging the database and staging the log, and the log could be set aside
  (`RestoreMachine.CompanionsAfterRollback`, `RestoreLimits.FailingSwapLosesLog`). A crash followed by a recovery
  loses it exactly if it had not been staged (`RestoreCrash.RecoveryReturnsExactly`). A crash in a rollback or
  recovery that has put the database back but not yet the log leaves the log aside, and the old database is
  served without it (`RestoreCrash.RestartServesCompanions`, `RestoreLimits.CrashInRollbackStrandsLog`).
- A rollback ignores that a file could not be set aside. It then opens the old database beside a log of the new
  one exactly if there had been no log, reopening the new database made one, and that one could not be set aside
  (`RestoreMachine.ForeignCompanionExactly`, `RestoreLimits.OldDatabaseBesideNewLog`).
- A backup of an upload whose name the restore does not allow is written but cannot be restored
  (`BackupRestore.BackupAccepted`, `BackupRestore.GifIsWrittenAndRefused`).
- The login limit is exceeded by attempts that overlap. It has held in every window if and only if each failure
  was recorded when an attempt would still have been admitted (`LoginLimiter.WindowsHoldLimitExactly`); any other
  failure was admitted before all earlier ones had been recorded (`LoginLimiter.OnlyOverlapExceeds`), and for
  every limit and number of attempts at once the bound is reached (`LoginLimiter.WindowHoldsAtMost`,
  `LoginLimiter.BoundIsReached`). The reported wait is then too short, under the condition of
  `LoginHistory.RetryAfterSuffices` (`LoginLimiter.OverlapExceedsLimit`).
- `UpdateCategory` and `UpdateLink` report an error after their change was committed exactly if the row and its
  category exist, the write did not fail and reading the row again does (`NavigationStore.Store.UpdateCategory`,
  `NavigationStore.Store.UpdateLink`, `NavigationStore.CommittedThenError`).
- A parsed category is named after all folders around its links, with separators that contain a slash. Names
  without slashes keep different paths apart, but for a top-level folder that has the name for unfiled links
  (`BookmarkFolders.SharedExactly`); with a slash in a name two different paths can end up in one category
  (`BookmarkFolders.SlashesCollide`).
- The preview counts a category whose name is invalid as new although the commit does not create it
  (`BookmarkPreview.PreviewPredictsCommit` states by how much, `BookmarkPreview.NamelessCategoryIsAnnounced`).

## Assumptions

- `Text` stands for Unicode normalisation, case folding and URL handling; `Text.Lawful` is all that is
  assumed of them: normalising and trimming are idempotent, and names with equal keys are equally valid.
  Canonical URLs follow part of sections 6.2.2.1 and 6.2.3 of RFC 3986; here they are any function.
- `Codec` stands for JSON and SHA-256: decoding an encoded manifest gives it back, a digest has 64 characters.
- SQL statements, renames, removals, commands and downloads may fail at any point. Which statements fail is any
  function of the statements before; statements whose failure has the same effect count as one. The connection
  and the data directory count failures, so that an error is only reported when there was one, and one that there
  was is not swallowed.
- A swap begins with the active database and uploads in place. Theorems about a recovery after it assume that
  no rollback directory of an earlier swap still held a database then; `RestoreSwap` covers the other case. A
  first restart that finds a database needs no such assumption.
- `HtmlImportRoundTrip` assumes in addition that trimming an empty text leaves it empty.
- The HTML export is the tokens it is read back as; two pieces of text that follow each other are one run to a
  tokenizer, which makes no difference to the parser outside headings and links.
- The clock does not go backwards.

## Model

| member | source | states |
|---|---|---|
| `Listings.ListingUnique` | internal/storage/sqlite/navigation.go:12-30 | Positive, distinct sort orders determine one order of rows |
| `Navigation.ViewExists` | internal/storage/sqlite/navigation.go:12-53 | Valid tables stand for some list of categories with their links |
| `Navigation.ViewUnique` | internal/storage/sqlite/navigation.go:12-53 | They stand for exactly one list |
| `Navigation.SelectionUnique` | internal/storage/sqlite/navigation.go:13-16 | Which visibilities are shown determines the groups and their order |
| `NavigationRows.InsertCategoryView` | internal/storage/sqlite/navigation.go:59-106 | Inserting a row behind all others keeps the invariant and appends an empty category to the list |
| `NavigationRows.UpdateCategoryView` | internal/storage/sqlite/category_mutations.go:13-41 | Updating a category row edits it in its place; its slug and links stay |
| `NavigationRows.PutNewLinkView` | internal/storage/sqlite/navigation.go:134-192 | A new row behind all others of its category appends the link to that category |
| `NavigationRows.EditLinkView` | internal/storage/sqlite/link_mutations.go:13-51 | Changing fields in the same category keeps the place of the link |
| `NavigationRows.MoveLinkView` | internal/storage/sqlite/link_mutations.go:25-45 | Rewriting category and order takes the link out of its list and puts it at the end of the target |
| `NavigationRows.DeleteLinkView` | internal/storage/sqlite/link_mutations.go:53-66 | Deleting a row removes the link and changes nothing else |
| `NavigationRows.DeleteCategoryView` | internal/storage/sqlite/category_mutations.go:43-106 | Deleting a category with its links removes its group and no other |
| `NavigationRows.MoveLinksView` | internal/storage/sqlite/category_mutations.go:72-94 | Shifting the orders behind the target's maximum appends the source's links, in order, to the target; then the group goes |
| `NavigationRows.Pigeonhole` | internal/storage/sqlite/category_mutations.go:108-147 | As many distinct existing ids as rows is a permutation of the rows |
| `NavigationRows.ReorderCategoriesIsView` | internal/storage/sqlite/category_mutations.go:108-147 | Numbering rows 10, 20, ... in the given order lists the same groups in that order |
| `NavigationRows.ReorderLinksIsView` | internal/storage/sqlite/link_mutations.go:100-131 | The same for the links of one category; every other category is as before |
| `NavigationStore.GroupRows` | internal/storage/sqlite/navigation.go:28-53 | The join-and-group loop gives back exactly the groups whose rows it read, empty ones included |
| `NavigationStore.Store.Navigation` | internal/storage/sqlite/navigation.go:12-53 | Reading returns the list the tables stand for, in order, restricted to public categories unless private ones are asked for |
| `NavigationStore.Store.CreateCategory` | internal/storage/sqlite/navigation.go:59-106 | The list gains the returned category at its end; it is an error exactly if a statement failed, and changes nothing then |
| `NavigationStore.Store.UpdateCategory` | internal/storage/sqlite/category_mutations.go:13-41 | The category is edited in place; an error after the commit is reported if and only if the row exists, the write did not fail and the read after it did; every other error changes nothing |
| `NavigationStore.Store.CreateLink` | internal/storage/sqlite/navigation.go:134-192 | The list gains the returned link at the end of its category, if that exists; a failed statement is always reported, and an error changes nothing |
| `NavigationStore.Store.UpdateLink` | internal/storage/sqlite/link_mutations.go:13-51 | Within a category the link keeps its place, across categories it goes last; the errors say what was missing, and the one after the commit comes exactly when only the read after it fails |
| `NavigationStore.CommittedThenError` | internal/storage/sqlite/category_mutations.go:13-41 | Calls after which an error has been returned and the list has the new name |
| `NavigationStore.Store.DeleteLink` | internal/storage/sqlite/link_mutations.go:53-66 | The link is removed from the list; an error changes nothing |
| `NavigationStore.ClearCategory` | internal/storage/sqlite/category_mutations.go:62-97 | Links are deleted or moved exactly in the modes and with the targets the source accepts |
| `NavigationStore.Store.DeleteCategory` | internal/storage/sqlite/category_mutations.go:43-106 | The category goes, and its links go with it or to the end of the target in order; an error changes nothing |
| `NavigationStore.Store.ReorderCategories` | internal/storage/sqlite/category_mutations.go:108-147 | Absent SQL failure, succeeds if and only if the ids are a permutation of the stored ones, and then lists that sequence; otherwise nothing changes |
| `NavigationStore.Store.ReorderLinks` | internal/storage/sqlite/link_mutations.go:100-131 | The same for the links of one category |
| `Bookmarks.NormalizeInPlace` | internal/bookmarks/parse.go:82-98 | The field edits of a category amount to normalising its name and each of its links, with the problem of each |
| `Bookmarks.NormalizedFields` | internal/bookmarks/parse.go:86-96 | Each field of a link is brought into its normal form and stays if it has it; an icon is filled in where there is none |
| `Bookmarks.ProblemExactly` | internal/bookmarks/parse.go:117-141 | The problem of a link is the first of category, name, description, address and icon that is not in order, each with its bounds |
| `Bookmarks.LogoExactly` | internal/bookmarks/parse.go:143-147 | A stored logo is a PNG directly in the directory of logos |
| `Bookmarks.MergeByKey` | internal/bookmarks/parse.go:99-110 | The loop over the position map is the merge by key |
| `Bookmarks.NormalizeBatch` | internal/bookmarks/parse.go:81-111 | The batch is normalised, then merged |
| `Bookmarks.MergeIsStable` | internal/bookmarks/parse.go:99-110 | One category per key, in order of first occurrence, with all links of the key in input order |
| `Bookmarks.MergeUnique` | internal/bookmarks/parse.go:99-110 | Only one result satisfies that description |
| `Bookmarks.MergeDistinct` | internal/bookmarks/parse.go:99-110 | Categories with distinct keys are left as they are |
| `Bookmarks.NormalizeIdempotent` | internal/bookmarks/parse.go:81-141 | Normalising twice is normalising once |
| `Bookmarks.NormalizeEstablishes` | internal/bookmarks/parse.go:81-141 | What normalisation yields has distinct keys, and the links of a category with an invalid name are all invalid |
| `Bookmarks.NormalizedLinks` | internal/bookmarks/parse.go:81-111 | Every link of what it yields is in normal form, with the problem it has under the name of its merged category |
| `BookmarkParser.StepBalanced` | internal/bookmarks/parse_html.go:28-94 | Every token keeps the folder stack as high as the number of frames that opened a folder |
| `BookmarkParser.StackMatchesFrames` | internal/bookmarks/parse_html.go:28-94 | So does every token stream whatsoever |
| `BookmarkParser.ParseTokens` | internal/bookmarks/parse_html.go:14-95 | The loop with its position map computes what the token machine computes, for every stream |
| `BookmarkParser.RunForest` | internal/bookmarks/parse_html.go:28-94 | Reading a subtree files its links under the folders open around it and leaves the folder stack as it was |
| `BookmarkParser.ParserFlattens` | internal/bookmarks/parse_html.go:14-95 | For every tree of any depth, parsing its tokens groups each link under its ancestors' names, in order of first appearance |
| `BookmarkFolders.ParserFiles` | internal/bookmarks/parse_html.go:14-95 | The categories of a parsed tree are one for each name that folders give, in order of first links, with exactly the links under that name in document order, each with its text and address |
| `BookmarkFolders.FolderName` | internal/bookmarks/parse_html.go:64-73 | That name is the names of the folders around the link, outermost first, with separators between them; folders without a name do not count, and outside of any it is the fixed one |
| `BookmarkFolders.JoinConcat` | internal/bookmarks/parse_html.go:70-73 | The name of a path is that of its first part, a separator, and that of the rest, wherever it is cut |
| `BookmarkFolders.SharedExactly` | internal/bookmarks/parse_html.go:70-79 | Two links whose folder names have no slash share a category if and only if they have the same path, but for a top-level folder with the name for unfiled links |
| `BookmarkFolders.SlashesCollide` | internal/bookmarks/parse_html.go:70-79 | With a slash in a name two different paths can share one |
| `BookmarkImport.ImportLinkConsistent` | internal/storage/sqlite/bookmark_import.go:56-93 | One imported link keeps the lookup maps exact and the ids unique |
| `BookmarkImport.ImportConsistent` | internal/storage/sqlite/bookmark_import.go:30-94 | A whole import does, and afterwards every valid link and category of the batch is known |
| `BookmarkImport.ReimportCreatesNothing` | internal/storage/sqlite/bookmark_import.go:30-94 | After an import with any strategy, a skip import of the same batch creates no link and no category and leaves the list as it is |
| `BookmarkImport.ImportKeepsUrlsUnique` | internal/storage/sqlite/bookmark_import.go:56-93 | Skip and update keep canonical URLs pairwise distinct |
| `BookmarkImport.ImportCountsEveryLink` | internal/storage/sqlite/bookmark_import.go:30-93 | Created, updated, skipped and invalid add up to the links of the batch; one id is reported per created or updated link |
| `BookmarkImport.ImportReport` | internal/storage/sqlite/bookmark_import.go:26-98 | So the counters an import returns add up to its links |
| `BookmarkImport.ImportLeavesOthers` | internal/storage/sqlite/bookmark_import.go:31-94 | With any strategy every category keeps its place, and each link whose canonical URL no valid link of the batch has stays in its category, unchanged and in order |
| `BookmarkImport.ImportOnlyAppends` | internal/storage/sqlite/bookmark_import.go:31-94 | Skip and create leave every old category and link in place; new ones follow |
| `ImportLedger.ImportIsLedger` | internal/storage/sqlite/bookmark_import.go:30-94 | For every strategy, in closed form: the categories made, in order, with name, slug, icon and visibility; the links placed, under which ids and in which category; where each link of the list ends up; the counters and the ids reported |
| `ImportLedger.ReportedLinks` | internal/storage/sqlite/bookmark_import.go:75-92 | Each reported id is that of the link which its link of the batch became, and that link is in the category of its key, with the fields of the last link of the batch placed under it |
| `ImportLedger.CreatedAscend` | internal/storage/sqlite/bookmark_import.go:79-92 | The ids of the links made are above all old ones, in the order of the batch |
| `ImportLedger.CreatedFill` | internal/storage/sqlite/bookmark_import.go:79-92 | And without a gap |
| `ImportLedger.DuplicateId` | internal/storage/sqlite/bookmark_import.go:61-78 | Any other link has the id stored under its canonical URL, or that of the link made before for the same URL |
| `BookmarkCommit.ReadCategories` | internal/storage/sqlite/bookmark_import.go:101-122 | Each key leads to a category with it, none is missing, and the order returned is the maximum |
| `BookmarkCommit.ReadLinks` | internal/storage/sqlite/bookmark_import.go:124-147 | Each canonical URL leads to its oldest link, none is missing, and the orders bound those of each category |
| `BookmarkCommit.StartIsConsistent` | internal/storage/sqlite/bookmark_import.go:101-147 | The maps read from the tables are exact, so the theorems on imports apply to the store |
| `BookmarkCommit.ImportOneLink` | internal/storage/sqlite/bookmark_import.go:56-93 | The row operations on one link are the list operation of its strategy: counted, skipped, moved to the end with new fields, or appended |
| `BookmarkCommit.ImportOneCategory` | internal/storage/sqlite/bookmark_import.go:31-94 | A category is found or appended by its key and its links imported in order; an invalid name counts all its links as invalid |
| `BookmarkCommit.ImportBatch` | internal/storage/sqlite/bookmark_import.go:30-94 | The nested loops are the fold of those operations over the batch; the next order of a category stays behind all its links |
| `BookmarkCommit.ImportBookmarks` | internal/storage/sqlite/bookmark_import.go:15-99 | On success the store presents the folded list, which is the one of the closed form, and returns its counters and ids; on an error, which comes exactly when a statement failed, the tables are untouched |
| `BookmarkPreview.IndexGroups` | internal/bookmarks/service.go:50-60 | The preview's maps know exactly the stored keys and canonical URLs, each with the last category or link that has it |
| `BookmarkPreview.BuildPreview` | internal/bookmarks/service.go:50-87 | The loops walk the batch in order against exact indexes of the stored names and URLs, and what comes out says of every category and link what the next row states |
| `BookmarkPreview.PreviewAnnounces` | internal/bookmarks/service.go:50-87 | One item per category and one entry per link, in order: invalid exactly if the link has a problem; a duplicate exactly if its URL is stored or belongs to an earlier valid link, of which the last stored or else the first such one is named; new otherwise; a category is new exactly if its key is not stored, and the counters count the entries |
| `BookmarkPreview.PreviewUnique` | internal/bookmarks/service.go:50-87 | Batch and stored list determine the preview |
| `BookmarkPreview.NamelessCategoryIsAnnounced` | internal/bookmarks/service.go:61-71 | A batch whose only category is announced as new and not created |
| `BookmarkPreview.PreviewPredictsCommit` | internal/bookmarks/service.go:50-87 | On the same store and a normalised batch the preview's counters are those of the commit, for each strategy; new categories differ by the unmatched invalid names |
| `BookmarkExport.ExportGroups` | internal/bookmarks/export.go:78-97 | Exactly the groups in scope, in order: all, those that are public, or those that are private |
| `BookmarkExport.ExportJson` | internal/bookmarks/export.go:49-76 | The document has the categories and links of the groups in order, field by field, each category with its own visibility |
| `BookmarkExport.ExportIsNormal` | internal/bookmarks/export.go:49-76 | Exporting a clean list gives a batch that normalisation leaves alone |
| `BookmarkExport.EmptyStart` | internal/storage/sqlite/bookmark_import.go:101-147 | Tables without rows start an import from an empty list, whatever ids were used before |
| `BookmarkExport.JsonRoundTrip` | internal/bookmarks/export.go:49-76 | Exporting all, normalising and importing into an empty store gives the same categories and links in the same order |
| `BookmarkExport.WriteHtml` | internal/bookmarks/export.go:25-47 | The writer's loops put out the tokens of the exported tree, line by line |
| `BookmarkExport.HtmlHoldsLinks` | internal/bookmarks/export.go:35-44 | Every link is in the file, with its address, its name, and its description if it has one |
| `BookmarkExport.HtmlRoundTrip` | internal/bookmarks/export.go:25-47 | The parser's loop gives back the non-empty categories with the names and addresses of their links in order |
| `BookmarkExport.HtmlNormalizes` | internal/bookmarks/parse_html.go:31-36 | The normalisation that ends the parse merges those with the same key, stably |
| `BookmarkExport.HtmlImportRoundTrip` | internal/bookmarks/export.go:25-47 | Exporting a clean list as HTML, parsing, normalising and importing it into an empty store gives its categories with links, each with the names and addresses in order, a generated icon and no description |
| `RestoreMachine.NextKeepsInv` | internal/restore/swap.go:10-74 | Every step of swap, undo, clean-up, crash and recovery keeps the invariant |
| `RestoreMachine.RunKeepsInv` | internal/restore/swap.go:10-74 | The invariant holds at every point of every run |
| `RestoreMachine.NoDataLost` | internal/restore/recover.go:26-126 | However many crashes fall wherever, until the swap is settled the old database and uploads are each active or in its rollback directory, unless a move of the rollback failed, or a recovery has begun with another database left over |
| `RestoreMachine.SwapIsAllOrNothing` | internal/restore/swap.go:10-46 | When a swap has ended, both replacements are active, or both old items are |
| `RestoreMachine.NewDatabaseOpensAlone` | internal/restore/swap.go:24-45 | The new database is never opened next to companions of the old one |
| `RestoreMachine.CompanionsAfterRollback` | internal/restore/swap.go:48-74 | After an undo a companion that existed is as it was if and only if the failing step was not between staging the database and staging it, or it could not be set aside either; where there was none there is none unless one could not be set aside |
| `RestoreMachine.ForeignCompanionExactly` | internal/restore/swap.go:53-57 | The old database is reopened beside a foreign companion if and only if there had been none and one could not be set aside, which takes a failed reopening of the new database |
| `RestoreMachine.RecoveryIsComplete` | internal/restore/recover.go:46-126 | A recovery that finishes has put the old state back and left no rollback directory and no workspace |
| `RestoreCrash.NextKeepsMarks` | internal/restore/swap.go:10-74 | Every step keeps what is known of where the database, the uploads and the companions are, by the point reached and by the point where the process died |
| `RestoreCrash.RunKeepsMarks` | internal/restore/swap.go:10-74 | So it is known at every point of every run |
| `RestoreCrash.RestartServesExactly` | internal/restore/recover.go:54-63 | A restart that finds a database serves the old pair or the new one if and only if the process did not die at one of the listed points, or uploads are active and a replacement equals what it replaced; after such a death the old uploads are still in the rollback directory and nothing extracted is left |
| `RestoreCrash.RestartServesCompanions` | internal/restore/recover.go:54-63 | An old database that a restart finds has its companion if and only if the point of death says so; one that was staged and is missing is in the rollback directory |
| `RestoreCrash.RestartServesNewAlone` | internal/restore/recover.go:54-63 | A new one has no companions but its own, and the old ones are in the rollback directory |
| `RestoreCrash.RecoveryReturnsExactly` | internal/restore/recover.go:104-124 | A restart that finds none puts the old pair back, and a companion as it was if and only if there was none or it had been staged |
| `RestoreCrash.UndoFailureKeepsBoth` | internal/restore/swap.go:48-74 | When a rollback fails, the database is active exactly if it was not staged or was put back before, the uploads exactly if they were not staged; otherwise they are in the rollback directory |
| `RestoreCrash.FailedRollbackLosesExactly` | internal/restore/swap.go:14-24 | During the removals after it, such an item is lost if and only if the removal has reached it and the active replacement does not equal it; any other item is intact |
| `RestoreCrash.ServesAfterFailedRollback` | internal/restore/swap.go:14-24 | The same when the application serves again, after the removals or after a crash and a restart that finds a database |
| `RestoreAftermath.RecoveryAfterFailedRollback` | internal/restore/recover.go:68-86 | After a crash during those removals a recovery brings the old database back if and only if they had not reached it, and with it the uploads unless they meet a directory that is not empty |
| `RestoreStartup.StartRecoversExactly` | cmd/iiiu-nav/data.go:28-37 | Directories are created before the recovery, so for every data directory with one database set aside it succeeds if and only if no uploads were set aside with it; otherwise the database is back and they are not |
| `RestoreStartup.StartAfterCrash` | cmd/iiiu-nav/data.go:28-37 | So after a crash that leaves no database the program's own start recovers if and only if the uploads had not been staged |
| `RestoreStartup.StartFailsOnce` | cmd/iiiu-nav/data.go:28-37 | A run after which that start fails |
| `RestoreSwap.RecoverDirRestores` | internal/restore/recover.go:88-126 | One rollback directory with a database: database, companions and uploads come back, the directory is gone, nothing else changes |
| `RestoreSwap.RecoverDirRefuses` | internal/restore/recover.go:109-121 | A directory whose uploads are refused: its database and companions are active, its uploads stay in it, and so do the active ones |
| `RestoreSwap.RecoveryRestores` | internal/restore/recover.go:46-86 | With exactly one database, whose uploads, if any, meet an absent or empty directory, the recovery brings that directory back, in whatever order it visits; without uploads in it the active ones stay |
| `RestoreSwap.LastDatabaseWins` | internal/restore/recover.go:68-86 | For every set of files and every order: the recovery is refused if and only if the uploads of a visited directory meet a non-empty one, and the database of the last directory reached is active, also when that one is refused |
| `RestoreSwap.StopsAtNewest` | internal/restore/recover.go:68-86 | The newest is the last one reached if and only if its own uploads are refused or no other directory holds a database |
| `RestoreSwap.NewestWinsExactly` | internal/restore/recover.go:68-86 | The newest database ends up active if and only if its own uploads are refused, no other directory holds a database, or the last one reached has the same contents |
| `RestoreSwap.OlderDatabaseWins` | internal/restore/recover.go:78-86 | Two directories with database and uploads: the recovery is refused, with the older database and the newer uploads active |
| `RestoreProcess.DataRoot.Rename` | internal/restore/swap.go:81-89 | A rename happens as a whole or not at all, and fails where the disk refuses it |
| `RestoreProcess.DataRoot.MoveIfExists` | internal/restore/swap.go:81-89 | Nothing to move is success; otherwise one rename |
| `RestoreProcess.DataRoot.Swap` | internal/restore/swap.go:10-46 | The answer follows from what the system refused: done means both replacements are active and the new database was opened at the first attempt; a reported rollback that both old items are and the old database is open; a failed one that it is not; and every refusal is accounted for, so that none is swallowed but of setting a file aside and of the removal at the end |
| `RestoreProcess.DataRoot.RenameAll` | internal/restore/swap.go:24-46 | The chain of renames runs through the machine's steps and ends in clean-up, with the refusals and attempts to open accounted for |
| `RestoreProcess.DataRoot.RollbackSwap` | internal/restore/swap.go:48-74 | The undo runs through the machine's steps; success means that no move it needs failed and the old database is open, failure that exactly one call it needs was refused, or the uploads were in the way |
| `RestoreProcess.DataRoot.RemoveUnused` | internal/restore/swap.go:11-18 | A swap that could not close the database removes its empty rollback directory, or leaves it, and nothing else |
| `RestoreProcess.DataRoot.Restart` | cmd/iiiu-nav/data.go:28-37 | The next start after a death, at any point, begins the sweep |
| `RestoreProcess.DataRoot.RemoveAll` | internal/restore/swap.go:15-15 | A directory is emptied entry by entry, each a step of the machine; it stops early only when a removal failed |
| `RestoreProcess.DataRoot.SweepWorkspaces` | internal/restore/recover.go:26-60 | Success removes all validating workspaces and nothing else, failure means that one removal was refused |
| `RestoreProcess.DataRoot.RecoverInterrupted` | internal/restore/recover.go:26-86 | Success means that no call of the system failed; and unless one did, the outcome, success or refusal, and the files are those of the closed form; with a database present only workspaces are removed |
| `RestoreProcess.DataRoot.RecoverRollbackDirectory` | internal/restore/recover.go:88-126 | Unless a call of the system failed, outcome and files are those of the closed form of one directory |
| `RestoreLimits.FailingRollbackLosesDatabase` | internal/restore/swap.go:14-22 | A run in which a failing rollback and the deferred removal lose the old database |
| `RestoreLimits.FailingRollbackLosesBoth` | internal/restore/swap.go:14-24 | A run in which the rollback cannot create its directory and neither the database nor the uploads remain |
| `RestoreLimits.CrashBetweenActivationsDropsUploads` | internal/restore/swap.go:36-41 | A run in which the process dies between the two activations and serves the new database without uploads |
| `RestoreLimits.FailingSwapLosesLog` | internal/restore/swap.go:25-32 | A run in which staging the write-ahead log fails, the rollback succeeds, and the log is gone |
| `RestoreLimits.CrashInRollbackStrandsLog` | internal/restore/swap.go:58-65 | A run in which the process dies in a rollback and the old pair is served without its write-ahead log, which stays aside |
| `RestoreLimits.OldDatabaseBesideNewLog` | internal/restore/swap.go:53-73 | A run in which the rollback goes on and opens the old database beside a log of the new one |
| `RestoreLimits.InterruptedRecoveryStrandsUploads` | internal/restore/recover.go:46-66 | A run in which an interrupted recovery leaves the uploads in the rollback directory for good |
| `Archive.WellFormedStep` | internal/restore/service.go:103-130 | An entry may follow exactly if it is allowed, its folded name is new and the total stays within the limit |
| `Archive.InspectEntry` | internal/restore/service.go:103-130 | An entry is refused only if the archive cannot be well formed whatever follows, as too large exactly if its name is in order; otherwise names, totals and the manifest's place are updated |
| `Archive.Inspect` | internal/restore/service.go:96-144 | Accepts exactly the acceptable archives, and explains a refusal: by the first entry that spoils the archive, by one that is missing, or by the manifest; the total is the sum of the sizes and never exceeds the limit, so it cannot overflow |
| `Archive.RequireEntries` | internal/restore/service.go:131-144 | Database, uploads and a usable manifest are required, and nothing more; a manifest that can be read but is not of the known format is told apart |
| `ArchiveNames.AllowedPathExactly` | internal/restore/service.go:146-181 | A file path is allowed exactly if it is one of the two fixed names or a picture among the backgrounds, logos or site images: not hidden, of permitted characters, ending in .png, or in .jpg for a background, in letters of either case |
| `ArchiveNames.UploadAllowedExactly` | internal/restore/service.go:153-181 | The same for a path given by its directory and its name |
| `ArchiveNames.EntryAllowedExactly` | internal/restore/service.go:102-113 | An entry is accepted exactly if it is a file under such a path, spelled just so, or one of the four directories, with a slash behind it or not |
| `ArchiveNames.CollideExactly` | internal/restore/service.go:118-122 | Names collide exactly if they differ in nothing but the case of letters |
| `ArchiveNames.AcceptedExactly` | internal/restore/service.go:96-202 | Which archives are accepted, and with which manifest, in terms of the entries alone: names permitted, none colliding, sizes within the limit, and the three entries needed, of which the manifest is of the one known format |
| `ArchiveExtract.ReadRecords` | internal/restore/service.go:204-211 | Succeeds exactly on manifests with usable records and distinct paths, and maps each path to its record |
| `ArchiveExtract.Extract` | internal/restore/service.go:204-268 | Succeeds exactly if every file matches its record and no record is left over; writes each file's bytes under its name |
| `ArchiveExtract.MatchesExactly` | internal/restore/service.go:254-266 | A file matches its record exactly if it is as long as both say and has the recorded digest, in letters of either case; then all its bytes are written |
| `ArchiveExtract.ExtractedIsExact` | internal/restore/service.go:204-268 | The extracted files are the manifest's paths one to one, each of the recorded size and digest |
| `ArchiveExtract.AcceptedItemsDistinct` | internal/restore/service.go:114-122 | What inspection accepts has pairwise distinct clean names, so no file is written twice |
| `Backup.WriteArchive` | internal/backup/service.go:185-270 | The archive holds the database, the walked uploads in order and the manifest of every file |
| `Backup.ManifestRecordsExactly` | internal/backup/service.go:185-260 | The manifest names its format and what the process adds, and records exactly the database and the regular files, each with path, size and digest |
| `Backup.KeptMembers` | internal/backup/service.go:213-238 | The walk archives exactly the regular files and directories |
| `BackupRestore.KeptIsKept` | internal/backup/service.go:213-238 | What a walk archives are files and directories with relative names, so the theorems below apply to every walk |
| `Backup.FileEntryAllowed` | internal/restore/service.go:104-113 | The entry written for an upload is accepted if and only if its path is allowed |
| `Backup.DirectoryEntryAllowed` | internal/restore/service.go:104-113 | The entry written for a directory is accepted if and only if it is one of the known directories |
| `BackupRestore.LayoutWellFormed` | internal/restore/service.go:96-144 | The entries of a backup pass inspection if and only if names are allowed, distinct ignoring case, and everything fits |
| `BackupRestore.BackupAccepted` | internal/restore/service.go:96-202 | A written backup is accepted if and only if it is restorable, and the manifest read is the one written |
| `BackupRestore.UploadIsRefused` | internal/backup/service.go:233-237 | One upload under a name that is not allowed is written, and no restore accepts the archive |
| `BackupRestore.GifIsWrittenAndRefused` | internal/backup/service.go:213-238 | Such a walk: a GIF among the logos |
| `BackupRestore.PhotoRestoredExactly` | internal/restore/service.go:162-171 | A backup with a JPEG among its uploads is accepted if and only if that is a background |
| `BackupRestore.BackupRestoresExactly` | internal/restore/service.go:204-240 | A restorable backup is extracted to exactly the saved database, files, bytes and directories |
| `LoginHistory.AllowedExactly` | internal/server/login_limiter.go:25-39 | An attempt is admitted if and only if the failure that is the limit-th from the end is out of the window |
| `LoginHistory.SpacedWindows` | internal/server/login_limiter.go:56-70 | If failures are spaced, no window holds more than the count |
| `LoginHistory.WithinLimitExactly` | internal/server/login_limiter.go:25-70 | No window ever holds more than the limit if and only if any limit + 1 consecutive failures take as long |
| `LoginHistory.SpacedExactly` | internal/server/login_limiter.go:25-39 | That is so if and only if each failure was recorded when an attempt would still have been admitted |
| `LoginHistory.FailureExceedsExactly` | internal/server/login_limiter.go:41-48 | A failure takes its window over the limit if and only if an attempt would be refused just then |
| `LoginHistory.RetryAfterSuffices` | internal/server/login_limiter.go:34-38 | The told wait is enough if and only if the limit-th failure from the end is as old as the oldest one counted, or, when it was rounded up, has left the window a second from now |
| `LoginHistory.RetryAfterExact` | internal/server/login_limiter.go:34-38 | While windows hold at most the limit, a refused client is admitted at the told time and not before, but for rounding up to a second |
| `LoginHistory.FailKeeps` | internal/server/login_limiter.go:41-48 | Recording a failure keeps what is known of every attempt's admission and overlap |
| `LoginHistory.FailuresAreSpaced` | internal/server/login_limiter.go:25-48 | Whatever the interleaving, limit plus peak failures in a row take at least the window |
| `LoginLimiter.Limiter.RecentFailures` | internal/server/login_limiter.go:56-70 | Pruning returns exactly the failures since the last reset that are in the window |
| `LoginLimiter.Limiter.Allow` | internal/server/login_limiter.go:25-39 | Admits if and only if the history holds fewer failures in the window than the maximum, and tells the wait |
| `LoginLimiter.Limiter.Failed` | internal/server/login_limiter.go:41-48 | The history gains the failure and the list is the pruned history; it is longer than the maximum if and only if an attempt would have been refused just then |
| `LoginLimiter.Limiter.Reset` | internal/server/login_limiter.go:50-54 | The client's history is empty afterwards; no other client changes |
| `LoginLimiter.Limiter.Drop` | internal/server/auth.go:61-75 | An admitted attempt that ends without a verdict leaves the limiter as it is |
| `LoginLimiter.WindowHoldsAtMost` | internal/server/login_limiter.go:25-70 | In every reachable state no window holds more than the maximum plus the attempts that overlapped, less one |
| `LoginLimiter.WindowsHoldLimitExactly` | internal/server/login_limiter.go:25-70 | In every reachable state the limit has held in every window if and only if each failure was recorded when an attempt would still have been admitted |
| `LoginLimiter.OnlyOverlapExceeds` | internal/server/login_limiter.go:25-48 | Any other failure was admitted before all earlier ones had been recorded |
| `LoginLimiter.BoundIsReached` | internal/server/login_limiter.go:25-48 | For every maximum and every number of attempts at once, calls after which a window holds as many failures as the bound allows |
| `LoginLimiter.WaitIsExact` | internal/server/login_limiter.go:34-38 | For requests one after another the told wait is exact |
| `LoginLimiter.OverlappingAttempts` | internal/server/login_limiter.go:25-48 | Calls of the limiter's own methods that bring this about |
| `LoginLimiter.OverlappingIsReachable` | internal/server/login_limiter.go:25-48 | Two attempts admitted together may both fail |
| `LoginLimiter.OverlapExceedsLimit` | internal/server/login_limiter.go:25-48 | They exceed a limit of one, and the told wait is too short |
| `ExecutorMachine.NextKeepsInv` | internal/hostexecutor/hostexecutor.go:133-218 | Every accepted start and every step of any worker keeps the invariant: one unfinished worker exactly while running |
| `ExecutorMachine.RunKeepsInv` | internal/hostexecutor/hostexecutor.go:133-218 | It holds at every point of every interleaving |
| `ExecutorMachine.OnlyTheWorkerSteps` | internal/hostexecutor/hostexecutor.go:133-146 | While an update runs, nothing happens but the steps of its worker |
| `ExecutorMachine.InOrder` | internal/hostexecutor/hostexecutor.go:133-164 | Steps of two updates never interleave |
| `ExecutorMachine.FinishIsLast` | internal/hostexecutor/hostexecutor.go:148-164 | Finishing is the last effect of a worker |
| `ExecutorMachine.FinishedExactly` | internal/hostexecutor/hostexecutor.go:133-164 | Every accepted start finishes exactly once, but for the running one |
| `ExecutorMachine.FinishesInTime` | internal/hostexecutor/hostexecutor.go:148-218 | A worker takes at most fifteen steps |
| `ExecutorMachine.RestoreOnlyWhenStopped` | internal/hostexecutor/hostexecutor.go:192-210 | A backup is restored only right after the same worker stopped the service, after the previous image failed to come up, and only if one was named |
| `ExecutorMachine.DeploysResolvedImage` | internal/hostexecutor/hostexecutor.go:148-176 | Only an image that the release manifest named and that was pulled is written to the override |
| `ExecutorMachine.HealthyExactly` | internal/hostexecutor/hostexecutor.go:148-218 | The outcome says healthy if and only if the last command was an up that succeeded |
| `ExecutorMachine.SuccessIsDeployed` | internal/hostexecutor/hostexecutor.go:148-176 | While the status says succeeded, the override holds the resolved, pulled image of the last request and the service came up with it |
| `ExecutorTrail.OutcomeMeans` | internal/hostexecutor/hostexecutor.go:148-218 | Every update that ends took the course of its outcome: which commands it ran, in which order, and how each came out; and whether a backup was named decides what follows when the previous image does not come up |
| `ExecutorTrail.ResolveIsFirst` | internal/hostexecutor/hostexecutor.go:148-154 | That course begins with the first step of its worker |
| `ExecutorTrail.RecoversReportedImage` | internal/hostexecutor/hostexecutor.go:320-332 | A recovery writes the image that the container reported, or the stable tag if it reported none |
| `ExecutorTrail.PhaseIsShown` | internal/hostexecutor/hostexecutor.go:133-218 | In every run the status shows the phase that the current update is in |
| `ExecutorService.Service.Start` | internal/hostexecutor/hostexecutor.go:133-146 | Accepts if and only if the version is well formed and no update runs; a refusal changes nothing |
| `ExecutorService.Service.SetPhase` | internal/hostexecutor/hostexecutor.go:377-385 | Changes the phase only, as a step of the worker |
| `ExecutorService.Service.Finish` | internal/hostexecutor/hostexecutor.go:391-401 | Sets the final status of the request as the worker's last step |
| `ExecutorService.Service.Swap` | internal/hostexecutor/hostexecutor.go:169-176 | Steps from the pulled image to success or to recovery; success leaves the image in the override |
| `ExecutorService.Service.Recover` | internal/hostexecutor/hostexecutor.go:182-218 | Steps from recovery to a failed end on every path |
| `ExecutorService.Service.Perform` | internal/hostexecutor/hostexecutor.go:148-164 | Carries an accepted request to its end, succeeded or failed, through steps of the machine only |

## Left out

- The web interface, HTTP handlers, cookies, origin checks and JSON decoding: request plumbing.
- Image decoding and clean-up, metadata fetching, network policy, disk space: foreign calls.
- Site and search settings, analytics, sessions, migrations, version comparison: values that are read, checked and written one by one.
- The password hash codec (`internal/auth/password.go`): only its forward direction holds, since the parser tolerates leading zeros and embedded newlines.
- Concurrent access to the store: it uses one connection, and a restore holds the maintenance lock.
- NavigationStore.Store.Navigation: the rows are given as the join query orders them; SQLite's joining and sorting are not modelled, and timestamps are left out.
- NavigationStore.Store.CreateCategory: `SortOrder` is zero, as in every call that reaches it over HTTP; slugs and the CHECK constraints can only make the statement fail.
- NavigationStore.Store.CreateLink: `SortOrder` is zero here as well; reading back the new row's id or the number of rows affected is taken not to fail.
- BookmarkCommit.ImportBookmarks: its nested loops are one method per level, so that each proof is small; random slugs are any function of the category's id.
- Bookmarks.NormalizeBatch: batches are values, so the edits in place are sequence updates; aliasing of slices is not captured.
- BookmarkParser.ParseTokens: starts from the tokens of an HTML tokenizer; attributes other than the address, character sets and entity decoding are not modelled.
- BookmarkExport.ExportJson: the document is the value handed to the JSON encoder; the bytes are not modelled.
- BookmarkExport.WriteHtml: writes the tokens that an HTML tokenizer finds in the file; escaping and the `ADD_DATE` attribute are not modelled.
- BookmarkExport.HtmlRoundTrip: speaks of token streams, without the `ADD_DATE` attribute; descriptions, icons and empty categories do not survive an HTML export.
- RestoreMachine.NoDataLost: ends where the application serves again or a rollback failed; `RestoreCrash.RestartServesExactly` and `RestoreCrash.FailedRollbackLosesExactly` say what happens there. A recovery with another database left over is the subject of `RestoreSwap`.
- RestoreCrash.RestartServesExactly: a restart after the first one is only covered if no rollback directory of an earlier swap held a database; a rollback that failed is the subject of `RestoreCrash.ServesAfterFailedRollback`.
- RestoreCrash.RestartServesCompanions: says nothing once a rollback has reopened the old database, which may then change its companions.
- RestoreProcess.DataRoot.Swap: what precedes it (preparing the staged database, the pre-restore backup) is not modelled.
- RestoreProcess.DataRoot.Restart: the machine and this class recover the directory as the crash left it; the upload directories that the program creates first are added in `RestoreStartup`.
- RestoreProcess.DataRoot.RecoverInterrupted: the directories are given in the order to visit, newest first by modification time; reading the times and sorting, and the list of performed actions, are left out.
- RestoreProcess.DataRoot.RecoverRollbackDirectory: directories hold their contents as one value that moves as a whole.
- Archive.Inspect: entries are names, sizes and bytes; ZIP decoding is left out. Names are folded as ASCII, which is exact for the names that are allowed.
- ArchiveExtract.Extract: disk errors while writing are not modelled; a file that exists already cannot occur, by `ArchiveExtract.AcceptedItemsDistinct`.
- Backup.WriteArchive: read and write errors are not modelled; the uploads do not change during the walk.
- LoginLimiter.Limiter.Allow: the mutex makes each method one step; which attempts are under way is ghost state kept for the theorems.
- ExecutorMachine.SuccessIsDeployed: says nothing about which image is "previous" in a rollback: it is whatever `docker inspect` reports then. Status messages and times are left out.
- ExecutorService.Service.Perform: the background worker is called rather than spawned; `ExecutorMachine.OnlyTheWorkerSteps` says that no other step can come between. The checks of the release manifest are one abstract answer.
