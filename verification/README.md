# byom: verified model of the scan, parse-queue and import pipeline

byom is a self-hosted music library. A scanner walks a location and syncs what it
finds into SQLite, a dispatcher claims the dirs that changed, workers parse them,
an importer replaces each dir's part of the catalog, and the server and the web
client page through the result. This project models those stages in Dafny and
proves what they promise together: over every interleaving of scanner, dispatcher,
workers, timers, requests and crashes, and for every tree, table and payload.

Verify everything with `dafny verify dfyconfig.toml`.

## How it is organised

Each stage has two layers. The store methods and in-memory objects are classes whose
methods change tables (maps) and fields in place; their contracts equate the new
state with specification functions. Where stages run concurrently, the same functions
are the steps of a step system (`State`, `Event`, `Enabled`, `Next`, `Runs`), because
each store method is one immediate transaction and each mutex section, channel
operation or stretch between two awaits is one atomic step. The results about runs are
lemmas over every sequence of enabled events.

| Files | Part |
| --- | --- |
| `Basics`, `Joins`, `Tables` | shared types, joined words, the scan tables and the database handle |
| `ParseQueue`, `Pipeline` | claim, conditional release, failure counts, wake-ups, retries |
| `QueueProtocol`, `QueueTokens`, `QueueExclusive`, `QueuePlaces`, `QueueWake`, `QueueTermination`, `QueueBudget`, `QueueAttempts` | the parse queue as a step system, and its invariants |
| `QueueRecovery`, `QueueExamples` | what crash recovery can do to a live worker, and two runs that show the queue's gaps |
| `Walk`, `WalkTree`, `WalkNames`, `WalkSync` | the post-order walk, the disc merger, the names they go by, and the hand-over to the sync workers |
| `Changeset`, `ScanStore`, `ScanSync`, `Scanner` | the diff of one dir, the store behind it, and a scan from claim to release |
| `ScanProtocol`, `ScanRuns` | scans of many locations as a step system; mark and sweep |
| `Catalog`, `CatalogFields`, `CatalogImages`, `CatalogImport`, `CatalogReplace`, `CatalogOutcome`, `CatalogRuns`, `CatalogOverwrite`, `LibraryStore` | replacing a dir's albums: the rows one by one, the whole call, and sequences of calls |
| `Artists`, `ArtistName`, `Importer`, `InternProtocol` | artist names, interning them, building the payload |
| `Keyset`, `RowOrder`, `Selection`, `Listings` | keyset pagination of albums, artists, tracks and scans |
| `InfiniteList`, `ListProtocol`, `ListRuns` | the client's growing lists |

Histories used only to state properties (how often a dir was synced, which version an
import read, which dirs a run emitted, which pages an entry was built from) are extra
fields of the step systems' states; no step depends on them.

## Where the code and its documentation disagree

The model follows the code in each case.

- `BeginScan` unlocks every locked dir of the location, on the assumption that its
  worker died (`sqlite/scan.go:43-46`); nothing checks that, and the schema says that
  locks are written only by claim and release. The recovery step itself still leaves one
  live claim per dir and a current catalog (`QueueRecovery.RecoveryItselfIsSafe`); what
  it breaks is that a live claim holds its lock, and
  `QueueExclusive.RecoveryKeepsExclusive` says exactly when. What follows can then go
  wrong: `QueueRecovery.RecoveryAllowsStaleImport` shows it from every state in which a
  live worker has read its dir, another is idle and nothing is queued, and
  `QueueExamples.StaleImport` from the initial state.
- `pump` is documented to return with no dirty dir left (`metadata/pipeline.go:143-144`),
  but skips dirs that are dirty and locked; when such a dir is released nobody is told.
  `QueueExamples.LostWakeUp` is such a run. `QueueWake.LossIff` is the exact list of the
  steps that lose a wake-up, among them a retry release whose reply is lost, and
  `QueueWake.NoOtherLostWakeUp` says the same of whole runs.
- `computeChangeset` relies on the missing flag of the known files, which `KnownFiles`
  does not load: a file that comes back with its old size and time stays missing
  (`Changeset.ReturnedFileStaysMissing`), and a file that stays missing makes its dir
  dirty on every scan (`Changeset.MissingRowReportedAgain`). `Changeset.SyncIsCompleteIff`
  and `Changeset.ResyncCleanIff` say exactly when.
- `ReplaceDirAlbums` promises that matching tracks keep their ids; a track whose old
  album comes earlier in the list is deleted first (`CatalogRuns.MovedTrackChangesId`).
  `CatalogRuns.TrackIdsStable` is the exact condition. Albums of one import that share a
  group key take each other's tracks (`CatalogOverwrite.FirstAlbumOverwritten`); the
  exact condition is `CatalogOverwrite.ImportedTrackStaysIff`.
- The payload's cover is documented to apply when no cover survived. If that image was
  linked before without being the cover, its link keeps that, and the album is left
  without a cover (`CatalogFields.CoverLeftUnset`); `CatalogFields.HasCoverIff` says
  exactly when an album has one.
- A scan whose sweep failed is still recorded as done, with rows that no walk confirmed
  (`ScanRuns.SweepFailsDone`); `ScanRuns.ExactIff` says when its rows are exact all the
  same.
- The client's loading flag can stay set with nothing in flight
  (`ListRuns.LoadingStaysOn`). `ListRuns.HonestIff` is the exact condition for a step to
  keep it right, and `ListRuns.FlagsHonest` the result for whole runs.
- A view mounted while another view of its key fetches the first page stays empty
  (`ListRuns.SecondViewStaysEmpty`); `ListRuns.ShowsAllIff` says exactly when a view
  shows all that was fetched for its list.

## Assumptions

Row ids are naturals, and a fresh id is larger than every earlier one. A dir is synced at
most once per generation (`ScanRuns.SyncRaisesGeneration` with `WalkSync.EmittedWalkable`
justify this for the scanner). Unicode tables are parameters, with the properties listed
in `ArtistName.Sane`. Page tokens decode to the cursor they were made from. What I/O,
clocks, tag readers and the network answer is a parameter of the methods and a free choice
of the events.

## Model

| member | source | states |
|---|---|---|
| ParseQueue.ParseQueueStore.DirtyDirs | sqlite/parsequeue.go:22-50 | Claims distinct dirty unlocked dirs up to the limit, fewer only when no other is left; exactly these rows become clean and locked with their generation. Each claim reports its row; when the rows cannot be read they stay locked and no claim is reported. |
| ParseQueue.ParseQueueStore.ReleaseDir | sqlite/parsequeue.go:79-100 | Succeeds exactly when the lock holds this token; then clears the lock and leaves dirty alone, otherwise changes nothing. |
| ParseQueue.ParseQueueStore.ReleaseAndRedirty | sqlite/parsequeue.go:102-122 | As ReleaseDir, and the dir is dirty again. |
| Pipeline.Pipeline.WorkerCount | metadata/pipeline.go:28-33 | A positive setting is used, any other gives the default; there is always a worker. |
| Pipeline.Pipeline.Wake | metadata/pipeline.go:84-98 | Wake-ups coalesce into one queued token. |
| Pipeline.Pipeline.RecordFailure | metadata/pipeline.go:289-305 | Afterwards the dir's count is of this generation: one more than before if it already was, and one otherwise; other dirs' counts stay. |
| Pipeline.Pipeline.ClearAttempts | metadata/pipeline.go:307-311 | Forgets one dir's failures. |
| Pipeline.Pipeline.ReleaseFailed | metadata/pipeline.go:250-287 | Counts the failure as RecordFailure does. A count below three redirties the row whose lock carries the token and, unless cancelled, starts one timer; a third failure releases it clean; a lost lock changes no row and starts no timer. |
| Pipeline.Pipeline.RetryDelay | metadata/pipeline.go:35-46 | The first retry waits the configured time, or a second, and each later one twice as long as the one before. |
| Pipeline.Pipeline.ParseClaimed | metadata/pipeline.go:188-248 | An import forgets the count and releases clean; any earlier failure counts and releases as ReleaseFailed does, so a first failure of a generation is always retried. |
| QueueProtocol.DirRows | sqlite/parsequeue.go:22-122 | What each step of the system does to a dir's row: only recovery, syncs, claims and releases by the row's own token change it. |
| QueueTokens.NoDirtySyncForgotten | sqlite/parsequeue.go:22-122 | In every run, a dir that was dirty and now rests clean and unlocked has a finished import or give-up whose claim came at or after its latest dirty sync. |
| QueueTokens.EqualTokensSameSyncs | sqlite/scan.go:138-164 | In every run, two claims of one dir with equal tokens saw the same syncs. |
| QueueTokens.TokensUnlock | sqlite/parsequeue.go:82-85 | The token check is enough: whoever's claim releases a lock did not miss a dirty sync. |
| QueueExclusive.RecoveryKeepsExclusive | sqlite/scan.go:43-51 | BeginScan keeps every live claim on its own lock if and only if no live claim is on a dir of the location. |
| QueueRecovery.RecoveryItselfIsSafe | sqlite/scan.go:47-51 | BeginScan alone always leaves at most one live claim per dir, and no dir that rests with an old import. |
| QueueExclusive.CarefulRunsAreExclusive | sqlite/scan.go:43-51 | If BeginScan only meets locks of dead workers: one live claim per dir, which holds the lock with its token, and a clean unlocked dir not given up shows its latest dirty version. |
| QueueRecovery.RecoveryAllowsStaleImport | sqlite/scan.go:43-51 | From every consistent state in which a worker has read its dir, another one is idle and nothing is queued, a run that starts with BeginScan ends with the dir at rest, not given up, on the old import. |
| QueueExamples.StaleImport | sqlite/scan.go:47-51 | A run from the initial state in which recovery takes a live worker's lock and the catalog ends up with version 1 of a newer dir, everything at rest. |
| QueueExamples.LostWakeUp | metadata/pipeline.go:143-174 | A concrete run after which the dispatcher sleeps, a dir is dirty and unlocked, and nothing will wake it. |
| QueuePlaces.OnePlace | metadata/pipeline.go:145-186 | Between crashes every unfinished claim is in exactly one of the dispatcher's batch, the channel and one worker. |
| QueuePlaces.ClaimsInFlight | metadata/pipeline.go:107-121 | At most three claims per worker are in flight. |
| QueueWake.LossIff | metadata/pipeline.go:143-174 | A step leaves the dispatcher asleep over a claimable dir that nothing will wake it for if and only if it was asleep, nothing else was pending, and the step recovers the locked dir, releases clean a dir dirtied meanwhile, loses the reply of a retry release, or skips the retry timer. |
| QueueWake.NoOtherLostWakeUp | metadata/pipeline.go:123-174 | Over every run: a wake-up is lost at the end if and only if one of these steps lost it and it stayed lost since. |
| QueueTermination.MeasureStep | metadata/pipeline.go:176-311 | Every dispatcher or worker step lowers a measure over claims, dirty dirs and attempts left. |
| QueueTermination.QuietRunsEnd | metadata/pipeline.go:107-174 | Without scans, syncs and crashes every run is at most as long as the measure of its start. |
| QueueBudget.AtMostMaxAttempts | metadata/pipeline.go:255-270 | From a reachable state, a dir without an older or duplicate claim in flight is claimed at most three more times. |
| QueueAttempts.CountsFailuresInARow | metadata/pipeline.go:289-311 | In every run the count of a dir and generation is its number of failures in a row, since the last import of the dir, failure of another generation or crash. |
| QueueAttempts.GivesUpOnlyWhenSpent | metadata/pipeline.go:261-270 | In every run a claim that gave up failed as at least the third failure in a row of its dir in its generation. |
| QueueAttempts.RetriesOnlyBelow | metadata/pipeline.go:272-286 | In every run a claim that was retried failed as the first or second. |
| QueueAttempts.FailedParse | metadata/pipeline.go:250-287 | A failed parse as steps of the system adds up to what one call does: the same count, row and timer. |
| Walk.DiscMerger.Emit | scan/scanner.go:265-272 | Hands a result to the workers unless cancelled. |
| Walk.DiscMerger.TakeDiscs | scan/walk.go:116-129 | Folds in exactly the waiting discs of the dir; every file keeps its original path under the new name, and its kind. |
| Walk.DiscMerger.Process | scan/walk.go:107-132 | Keeps the accounting of every file and dir seen so far: emitted, or waiting because its parent is not seen or is a disc itself. |
| WalkTree.WalkPostOrder | scan/walk.go:30-59 | Success means that every folder it enters could be listed and that the subtree's results were reported, children first; without a cancel it succeeds on every such tree. |
| WalkTree.ResultsPostOrder | scan/walk.go:36-58 | No dir is reported before anything inside it, and none twice. |
| WalkTree.CountResults | scan/walk.go:46-56 | The visited files are exactly the visible media files of the tree, each once, under its path and kind. |
| WalkTree.ParentsWalked | scan/walk.go:36-44 | The parent of every walked dir but the root is walked too. |
| WalkTree.WalkRoot | scan/walk.go:30-132 | Without a cancel the walk succeeds exactly on readable trees; then every media file is emitted or pending exactly once under its own path and kind, every non-disc dir is emitted once, and exactly the discs inside discs stay pending. |
| WalkNames.KindOf | scan/walk.go:61-83 | A name's kind is decided by what follows its last dot, in any case, against the two lists. |
| WalkNames.NoDotNoKind | scan/walk.go:73-83 | A name without a dot is no media file. |
| WalkNames.DiscNameIff | scan/walk.go:85-91 | A disc folder is "cd" or "disc" in any case, separators, a number, and nothing more or a separator and the rest of one line: the pattern, read as its possible matches. |
| WalkSync.WalkRootEmits | scan/walk.go:116-131 | What WalkRoot promises bounds the emitted files and dirs by those of the tree. |
| WalkSync.RelPathInjective | scan/walk.go:28-40 | Paths written with slashes and "." for the root stay distinct. |
| WalkSync.EmittedWalkable | scan/scanner.go:263-274 | The workers get each dir once, with each file name once, as stored strings. |
| WalkSync.ScanMatchesTree | scan/scanner.go:252-285 | After an exact scan the location's present dir rows are the tree's visible non-disc dirs, one row each. |
| Changeset.ComputeChangeset | scan/sync.go:77-111 | Reports exactly the files that differ from what is known, each with its walked name, kind, size and time and the known id, in order; as missing exactly the ids of known names that were not walked or not statted, each once; dirty if and only if something changed or is missing. |
| Changeset.DiffFiles | scan/sync.go:81-106 | The loop over the walked files: those that differ, described field by field, and the known names left over. |
| Changeset.SyncedAsWalked | sqlite/scan.go:166-233 | After a sync a file that differed is stored with its walked kind, size and time, present, under its old id; of any other row only the missing flag may change, and is set when the file was not found. |
| Changeset.SyncIsTruthful | sqlite/scan.go:166-233 | Every file stored as present was walked and statted with the stored size and time. |
| Changeset.SyncIsCompleteIff | sqlite/scan.go:114-136 | Present rows equal walked files if and only if no file came back unchanged and no new file looks like the zero File. |
| Changeset.FlaggedSyncIsCompleteIff | scan/sync.go:101-103 | With the true missing flag only the second exception is left. |
| Changeset.ResyncCleanIff | scan/sync.go:107-110 | Syncing the same walk again is clean if and only if every stored row was walked. |
| Changeset.MissingRowReportedAgain | scan/sync.go:107-110 | A concrete dir whose only file stays gone and which every scan reports dirty again. |
| Changeset.ReturnedFileStaysMissing | sqlite/scan.go:114-136 | A concrete dir whose file went missing, came back untouched and stays missing. |
| ScanStore.Store.BeginScan | sqlite/scan.go:27-72 | Aborts the location's running rows, unlocks and dirties its locked dirs, raises its generation by one and inserts one running row; an unknown location changes nothing. |
| ScanStore.Store.FinishScan | sqlite/scan.go:74-95 | A running row becomes done after success, aborted after a cancel and failed otherwise, with the counts; no other row changes. |
| ScanStore.Store.AbortRunningScans | sqlite/scan.go:235-243 | Aborts every running row, changes no other, and counts them. |
| ScanStore.Store.DirID | sqlite/scan.go:97-107 | Finds a row at the path, or reports that there is none. |
| ScanStore.Store.KnownFiles | sqlite/scan.go:114-136 | Reads a dir's rows by name, without their missing flag. |
| ScanStore.Store.UpsertFiles | sqlite/scan.go:181-207 | Each changed file is present under its old id, the given one or a fresh one, the last file of a repeated name wins, and no other row changes; ids stay unique. When every given id is for a name that has a row it cannot fail. |
| ScanStore.Store.UpsertDirRow | sqlite/scan.go:145-164 | Updates the row at the path, or inserts one under the candidate id when there is none; paths stay unique. |
| ScanStore.Store.SyncDir | sqlite/scan.go:138-179 | One row per path, seen in this generation, present, dirty only ever set; files marked missing by id, then upserted; a missing dir never holds a present file. A failing upsert rolls everything back. |
| ScanStore.Store.Sweep | sqlite/scan.go:351-391 | Exactly the location's present dirs of older generations go missing; of every file only the missing flag may change, and it is set exactly when its dir went missing now; both are counted. |
| ScanSync.SyncedRows | scan/sync.go:55-65 | The change set as written by the store is the sync that the diff stands for, and no other dir's files change. |
| Scanner.Scanner.Claim | scan/scanner.go:209-224 | Reserves a location exactly when it is free. |
| Scanner.Scanner.Track | scan/scanner.go:194-198 | The run gets the identity of its record and is found by it. |
| Scanner.Scanner.Start | scan/scanner.go:164-207 | Unknown and busy locations are reported and change nothing; otherwise one new run is tracked under its location and its scan, with a running row one generation up; a BeginScan that fails, before or after its commit, frees the location. |
| Scanner.Scanner.Release | scan/scanner.go:413-422 | Drops the run from both indexes and nothing else. |
| Scanner.Scanner.Cancel | scan/scanner.go:297-317 | Cancels exactly the tracked run; finished and unknown scans report differently. |
| Scanner.Scanner.Overlay | scan/scanner.go:397-411 | A stored running state shows as cancelling if and only if the tracked run was cancelled; a tracked run's live counts replace the stored ones. |
| Scanner.Scanner.SyncDir | scan/sync.go:40-75 | One dir from lookup to write: every file that differs is stored with its walked kind, size and time; the row carries the generation, is present, keeps its lock, and is dirty if it was, if forced, or if something changed; other dirs' files are untouched; each known name that was not found counts as missing. |
| Scanner.Scanner.SyncVisits | scan/scanner.go:257-261 | Every visited dir is synced and counted once, and no other dir changes. |
| Scanner.Scanner.Sync | scan/scanner.go:249-295 | Every visited dir is stored as by SyncDir; after a complete walk and sweep the present dirs are the visited ones, otherwise no dir goes missing; no row or file of another location changes, and an unvisited dir and its files change only by going missing; the missing counters are what went missing. |
| Scanner.Scanner.RunScan | scan/scanner.go:226-247 | A whole scan: dirs and files as in Sync, other locations untouched, the record closed by its outcome, the run released. |
| ScanProtocol.InvStep | scan/scanner.go:164-317 | Every step of starts, syncs, cancels, failures, crashes and recovery keeps indexes, records and marks consistent. |
| ScanRuns.ScansStayExclusive | scan/scanner.go:209-224 | In every reachable state each location has at most one live run and one running row, byScan entries are their location's byLoc entry, later scans have higher generations, and seen_generation never exceeds scan_generation. |
| ScanRuns.BeginSparesLiveRuns | sqlite/scan.go:36-42 | BeginScan's cleanup changes no record that a live run owns. |
| ScanRuns.FinishRecords | scan/scanner.go:237-244 | A live run's record is still running when it is closed, so closing records done, aborted or failed by its outcome, and its counts. |
| ScanRuns.FinishedForever | sqlite/scan.go:85-91 | A finished scan keeps its row through every run. |
| ScanRuns.DirRows | scan/scanner.go:164-317 | What each step does to a dir's row: begins recover their location, syncs stamp one dir, sweeps mark what their location's scan did not see. |
| ScanRuns.NewDirRows | sqlite/scan.go:151-164 | New dir rows come from syncs alone, with the scan's generation and unlocked. |
| ScanRuns.ScanRows | scan/scanner.go:164-317 | A scan's row changes only when a scan of its location begins, when it is closed, or at a restart. |
| ScanRuns.CancelsReach | scan/scanner.go:297-317 | A cancel reaches exactly the run that works on the scan, a shutdown every live run. |
| ScanRuns.SyncRaisesGeneration | sqlite/scan.go:153-164 | The first sync of a dir in a scan raises its generation. |
| ScanRuns.ExactIff | scan/scanner.go:276-284 | A live run's location has exactly the synced dirs present if and only if nothing stale is left, which a successful sweep guarantees. |
| ScanRuns.SweepFailsDone | scan/scanner.go:281-284 | A reachable state with a scan recorded as done and a present dir that its walk did not meet. |
| ScanRuns.MissingOnlyBySweep | sqlite/scan.go:374-380 | Over every run a dir goes missing only through the sweep of a completed walk that did not meet it. |
| ScanRuns.FailedNeverSweeps | scan/scanner.go:276-280 | A run whose walk failed or was cancelled never sweeps, and closes with that outcome. |
| ScanRuns.RunCanEnd | scan/scanner.go:226-247 | From every state every live run can end in a few steps, even if all that can fail does, and then its location is free. |
| LibraryStore.LibraryStore.UpsertAlbum | sqlite/library.go:185-228 | A known key keeps id and primary flag; a new album is primary exactly when its group has none; it sorts by its first credited artist. |
| LibraryStore.LibraryStore.ReplaceAlbumArtists | sqlite/library.go:263-280 | The links become the first credit of each artist, at its position and under its credited name. |
| LibraryStore.LibraryStore.ReplaceAlbumImages | sqlite/library.go:282-314 | Exactly the images are linked, under the kind given last; an old link stays a cover or not; a new one is the cover if the payload sets it and no old cover is among the images. |
| LibraryStore.LibraryStore.UpsertTrack | sqlite/library.go:230-261 | Inserts, or adopts the row with the same file and offset under its id. |
| LibraryStore.LibraryStore.ReplaceTrackCredits | sqlite/library.go:316-333 | The credits become the payload's first of each artist and role, in order. |
| LibraryStore.LibraryStore.ImportTracks | sqlite/library.go:106-121 | One album's tracks are upserted and its others deleted. |
| LibraryStore.LibraryStore.DirPrimaryGroups | sqlite/library.go:142-164 | The groups whose primary is an album of the dir. |
| LibraryStore.LibraryStore.DeleteStaleAlbums | sqlite/library.go:335-353 | Deletes the dir's albums that were not kept, with their tracks. |
| LibraryStore.LibraryStore.PromoteOrphanedPrimaries | sqlite/library.go:166-183 | Group by group in any order: each group without a primary promotes its oldest album. |
| LibraryStore.LibraryStore.ReplaceDirAlbums | sqlite/library.go:76-140 | The whole transaction equals its specification; for distinct keys it keeps a sound catalog sound, and every imported album and track, what is left of the others, and the primaries are as CatalogOutcome states field by field. |
| CatalogReplace.ReplaceResult | sqlite/library.go:76-140 | For every sound catalog and payload with distinct keys: one album per imported key, exactly its imported tracks, other dirs lose only adopted tracks, one primary per group. |
| CatalogReplace.PromotionMoves | sqlite/library.go:124-137 | After deleting stale albums and promoting, every group has one primary, no surviving primary moved, and a lost one passed to the smallest id. |
| CatalogOutcome.ReplaceFields | sqlite/library.go:76-140 | The catalog after a call, by its fields: imported albums with their ids, info, sort name, artists, images and cover; imported tracks with ids, info and credits; nothing else of the dir; other dirs as before but for adopted tracks; one primary per group, moved only to the smallest id when the old one is gone. |
| CatalogRuns.SoundForever | sqlite/library.go:166-169 | Over every sequence of imports: exactly one primary per group, at most one cover per album, unique ids, no orphaned track. |
| CatalogRuns.SoundFromEmpty | sqlite/library.go:166-169 | Every catalog that imports have built from nothing is sound. |
| CatalogRuns.PrimaryStays | sqlite/library.go:185-187 | Over every sequence of imports a surviving primary stays the primary. |
| CatalogRuns.AlbumIdsStable | sqlite/library.go:76-80 | A known album key keeps its row id; a new one takes the minted id. |
| CatalogRuns.TrackIdsStable | sqlite/library.go:106-121 | A known track keeps its id if and only if its old album is not an earlier one of the list. |
| CatalogRuns.MovedTrackChangesId | sqlite/library.go:91-122 | A sound catalog and a payload whose track comes back under a new id. |
| CatalogRuns.ReplaceTwice | sqlite/library.go:76-82 | A second identical import changes nothing. |
| CatalogOverwrite.ImportedTrackStaysIff | sqlite/library.go:91-122 | With group keys that may repeat: an imported track is in the catalog afterwards if and only if no later album of the list has its album's group key. |
| CatalogOverwrite.FirstAlbumOverwritten | sqlite/library.go:91-122 | A payload with a repeated group key whose first album loses its track. |
| CatalogImages.CoverKept | sqlite/library.go:282-314 | The links become the payload's images, at most one is the cover, a cover that survives is the only one kept, and without one the payload's choice among new links is the cover. |
| CatalogFields.CoverIsPayloads | sqlite/library.go:282-314 | Of distinct images, none of them an old cover, exactly the one that the payload sets is the cover, unless it was linked before. |
| CatalogFields.HasCoverIff | sqlite/library.go:296-312 | An album has a cover after an import if and only if an old one is among its images or the payload sets one that was not linked before. |
| CatalogFields.CoverLeftUnset | sqlite/library.go:303-312 | A concrete album that is left without a cover although the payload sets one. |
| CatalogImages.ReplaceImagesTwice | sqlite/library.go:303-312 | Importing the same images again changes nothing. |
| Importer.Importer.InternArtist | metadata/importer.go:170-217 | Answers the artist of the smallest id that holds the normalized name, inserting one under the trimmed name only if nobody holds it; no other alias appears; a failing store leaves the cache alone; empty names mean no artist. |
| Importer.Importer.BuildArtists | metadata/importer.go:80-94 | The album's artists are the first credits of each distinct artist, in order. |
| Importer.Importer.BuildCredits | metadata/importer.go:122-142 | The track's credits are the first of each artist and role, in order. |
| Importer.ArtistsDistinct | metadata/importer.go:80-94 | No artist is linked twice, and all credited ones are. |
| Importer.CreditsDistinct | metadata/importer.go:122-142 | No artist is credited twice in one role. |
| Importer.NoGaps | sqlite/library.go:268-277 | Of distinct artists the store omits none, so positions have no gap. |
| Importer.NoCreditOmitted | sqlite/library.go:321-331 | Of distinct credits the store omits none. |
| Importer.AlbumImages | metadata/importer.go:149-168 | One link per image; the first of kind cover, and only it, is set; one is set if any can be. |
| Importer.FirstsSpec | metadata/importer.go:80-89 | Skipping seen keys keeps exactly the first item of each key. |
| Importer.FirstsInOrder | metadata/importer.go:80-89 | And keeps them in order. |
| Artists.ArtistStore.ArtistsByAlias | sqlite/library.go:25-50 | Exactly the artists with the alias, oldest first. |
| Artists.ArtistStore.InsertArtist | sqlite/library.go:53-74 | Adds the artist and all its aliases, or nothing when a key is taken or the transaction fails; a lost reply reports failure although both were added. |
| InternProtocol.OneArtistPerName | metadata/importer.go:172-217 | In every interleaving, with failing inserts and restarts: at most one insert per name, all answers for a name agree, and they and the cache are the oldest artist. |
| InternProtocol.KnownNotInserted | metadata/importer.go:192-210 | A name that an artist already holds is never inserted. |
| InternProtocol.CachedAtOnce | metadata/importer.go:178-183 | A cached name is answered at once, without the lock and the store. |
| InternProtocol.AnswersCached | metadata/importer.go:211-216 | Until a restart every answered name is in the cache. |
| InternProtocol.LockNotOrphaned | metadata/importer.go:185-190 | In every run the write lock is free or held by a worker that can take its next step. |
| InternProtocol.RestartForgets | metadata/importer.go:211-216 | A restart forgets the cache and the calls under way, frees the lock, and leaves the store alone. |
| ArtistName.NormalizeArtistName | library/artist.go:31-67 | The rune loop computes the specified fold. |
| ArtistName.NormalizedIsClean | library/artist.go:31-67 | Normalizing is idempotent and yields no leading, trailing or doubled hyphen. |
| ArtistName.FixedIff | library/artist.go:43-64 | A name is its own normal form if and only if it is plain runes with single hyphens between words. |
| ArtistName.NormalizedJoinsWords | library/artist.go:43-54 | The normal form is the name's words, translated and joined by hyphens. |
| ArtistName.SameNameIff | library/artist.go:30-31 | Two names have one normal form if and only if they have the same words. |
| ArtistName.QuotesIgnored | library/artist.go:39-42 | A comma, quote or backquote anywhere in a name makes no difference. |
| ArtistName.BreaksAlike | library/artist.go:43-54 | Dots, slashes, spaces and dashes separate alike, several like one. |
| ArtistName.AmpersandIsAnd | library/artist.go:56-58 | An ampersand anywhere reads as "and". |
| ArtistName.StrokedIsO | library/artist.go:59-60 | A stroked o of either case reads as "o". |
| ArtistName.CaseIgnored | library/artist.go:61-62 | The case of any other rune makes no difference. |
| ArtistName.TrimIs | metadata/importer.go:205-206 | Trimming takes the spaces at both ends and nothing else. |
| Keyset.PagesAreListing | sqlite/libraryread.go:191-300 | On a fixed table the pages concatenate to the sorted listing, all but the last full. |
| Keyset.PagingEnds | sqlite/libraryread.go:281-287 | Following the tokens of a fixed table ends. |
| Keyset.PageTakesFront | sqlite/libraryread.go:281-300 | A page and what its token still lists make up what its cursor listed. |
| Keyset.StableRowsOnce | sqlite/libraryread.go:241-261 | Whatever changes between pages, no key comes twice and a row that stays comes exactly once. |
| Keyset.ListingUnique | sqlite/libraryread.go:256-260 | A table has one sorted listing. |
| Listings.Size | page/page.go:23-31 | Nothing or less means 50, anything above 200 means 200, a size between is honoured. |
| Listings.CursorIsRowKey | sqlite/libraryread.go:156-189 | The cursor made from an album has its sort values, and resuming behind it lets exactly the albums through that come after it by title, artist and dates, for every order and direction. |
| Listings.AlbumKeyOrder | sqlite/libraryread.go:167-189 | Each order by the albums' own fields: title; artist, original date, title; release date, title; original date, title; id; ties by the next field and then the id. |
| RowOrder.BlankDatesLast | sqlite/libraryread.go:177-184 | A blank date comes after every date before the year 9999. |
| RowOrder.TextLessIff | sqlite/libraryread.go:256-260 | Text is compared by its first differing character, and a prefix comes first. |
| Listings.AlbumResumesPastCursor | sqlite/libraryread.go:241-251 | The flipped row-value comparison is "past the cursor" in both directions. |
| Listings.AlbumsPage | sqlite/libraryread.go:196-300 | A page is the first wanted albums behind the cursor, in the order of their fields, and has a token if and only if some are left; changed queries and unknown orders are refused. |
| Listings.ArtistsPage | sqlite/libraryread.go:43-90 | The same for artists: by sort name, then id. |
| Listings.TracksPage | sqlite/libraryread.go:428-493 | The same for tracks: by disc, number and id; another album's token is refused. |
| Listings.ScansPage | sqlite/scan.go:283-348 | The same for scans: newest first, then by id; another filter's token is refused. |
| Listings.ScanResumesPastCursor | sqlite/scan.go:305-307 | The OR expansion is the mixed-direction comparison. |
| Listings.StableAlbumsOnce | sqlite/libraryread.go:191-195 | An album that keeps matching under an unchanged key is listed exactly once while the catalog changes. |
| Listings.AlbumPagesAreListing | sqlite/libraryread.go:196-300 | On a fixed catalog the pages list every matching album once, in the order of the albums' fields, for every order and direction. |
| Listings.AllAlbums | sqlite/libraryread.go:191-300 | A client that follows the tokens of a fixed catalog to the end reads exactly the wanted albums, in the order of their fields. |
| Listings.StableArtistsOnce | sqlite/libraryread.go:43-45 | An artist that stays under an unchanged key is listed exactly once while others come and go. |
| Listings.ArtistPagesAreListing | sqlite/libraryread.go:43-90 | On a fixed table the pages list every artist once, by sort name and id. |
| Listings.StableTracksOnce | sqlite/libraryread.go:428-493 | A track that keeps matching under an unchanged key is listed exactly once. |
| Listings.TrackPagesAreListing | sqlite/libraryread.go:428-493 | On a fixed catalog the pages list every matching track once, by disc, number and id. |
| Listings.StableScansOnce | sqlite/scan.go:283-348 | A scan that keeps matching is listed exactly once while others start and finish. |
| Listings.ScanPagesAreListing | sqlite/scan.go:283-348 | On a fixed table the pages list every matching scan once, newest first. |
| Listings.CoverJoinOnce | sqlite/libraryread.go:199-203 | With at most one cover the join yields an album once. |
| Listings.ArtistJoinOnce | sqlite/libraryread.go:206-210 | The artist join matches an album once per credited artist. |
| InfiniteList.ListCache.EntryFor | ui/src/lib/pagination.ts:33-46 | The cached entry, or a new empty one under the key. |
| InfiniteList.ListCache.ClearListCache | ui/src/lib/pagination.ts:28-31 | Drops every entry from the cache. |
| InfiniteList.View.LoadMore | ui/src/lib/pagination.ts:68-73 | Fetches exactly when the key's entry is neither in flight nor complete; only the two flags change. |
| InfiniteList.View.Arrived | ui/src/lib/pagination.ts:74-92 | The entry takes the page and its token; the view shows all of the entry if it still has the fetch's key, and nothing of it changes otherwise. |
| InfiniteList.View.Rejected | ui/src/lib/pagination.ts:85-91 | The entry is free again and keeps its items and token; the error shows, and loading ends, only under its key. |
| InfiniteList.View.KeyEffect | ui/src/lib/pagination.ts:94-101 | Shows the key's items, clears the error, and fetches when there is nothing and the list is not complete. |
| ListProtocol.InvStep | ui/src/lib/pagination.ts:26-101 | Every load, answer, failure, key change and clear keeps entries, requests and views consistent. |
| ListRuns.ListsStaySound | ui/src/lib/pagination.ts:68-101 | In every run each entry is the pages chained from the empty token, complete only after the last; each view shows the first pages of an entry of its own key once its effect ran. |
| ListRuns.ShowsAllIff | ui/src/lib/pagination.ts:74-101 | After any step a view shows everything fetched for its entry if and only if the step was its key effect or its own fetch under its present key, or it did before and no page came for the entry. |
| ListRuns.SecondViewStaysEmpty | ui/src/lib/pagination.ts:70-84 | A reachable state in which a view shows nothing of its key's complete, non-empty list, nothing is in flight, and loading more changes nothing. |
| ListRuns.OtherKeysUntouched | ui/src/lib/pagination.ts:76-90 | A fetch that ends changes no entry of another key, and no view but its own under its key. |
| ListRuns.PagesOnlyGrow | ui/src/lib/pagination.ts:78-80 | Entries only grow by whole pages. |
| ListRuns.ClearRefetches | ui/src/lib/pagination.ts:28-31 | After a clear, a view that runs its key effect shows nothing and asks for the first page again, whatever was cached or in flight. |
| ListRuns.CompleteListIsListing | ui/src/lib/pagination.ts:68-82 | A complete list over a server table that did not change is the table's whole listing. |
| ListRuns.LoadingStaysOn | ui/src/lib/pagination.ts:88-91 | A reachable state in which the shown list is complete, nothing is in flight, and loading is still set. |
| ListRuns.HonestIff | ui/src/lib/pagination.ts:87-91 | A step keeps a right loading flag right if and only if it is not the end of a fetch of the view for which "the view still has the fetch's key" differs from "it was the view's only fetch". |
| ListRuns.FlagsHonest | ui/src/lib/pagination.ts:68-92 | In every run without such a step every view's loading flag says whether a fetch of it is in flight. |

## Left out

- Deleting a location and its cascades, which do not promote new primaries; the catalog results are about runs of ReplaceDirAlbums.
- SQL text, drivers, connection pools, and transactions that fail half-way: a failed transaction is a step that changes nothing.
- The wait after a claim that failed (`metadata/pipeline.go:148-159`): a claim statement that fails before it changed rows is a step that changes nothing; one whose rows could not be read is the LoseClaims step.
- Real time and contexts: timers are pending events, cancellation is a free choice, and timeouts are not told apart from errors.
- JSON and base64 of page tokens; malformed tokens are refused before any of this and are not modelled.
- Tag readers, image decoding, blob storage, the hash behind a group key, and the removal of combining marks.
- The rpc, proto and main packages, UI components, routes and the scan monitor; of pagination.ts the scroll offsets.
- Finish times and error texts of scan rows.
- The order in which maps are iterated: results hold for every order.
- Pipeline.Pipeline.ParseClaimed: the steps before the import (location lookup, root, file list, parse) share one failing outcome; their interleavings with other workers are steps of QueueProtocol.
- Pipeline.Pipeline.ReleaseFailed: the delay is an unbounded product, without the 64-bit overflow that three attempts cannot reach.
- Scanner.Scanner.Start: the lookup of the location's root and the final read of the record, from which the answer is made, do not fail here.
- Scanner.Scanner.Sync: the sync workers run one after the other; their interleavings are steps of ScanProtocol.
- ScanStore.Store.SyncDir: ids given by the change set are required to have been minted before; for a given id whose name has no row, success is neither promised nor excluded.
- LibraryStore.LibraryStore.ReplaceDirAlbums: minted ids are required to be new and each payload to choose at most one cover, as the importer guarantees; keeping the catalog sound, and its fields after the call, are stated for distinct keys only.
- Listings.AlbumsPage: the page by fields is promised for tokens without blank dates, as every issued token is.
- Changeset.ComputeChangeset: walked names are required to be distinct, which WalkSync.EmittedWalkable proves of the walk.
- InternProtocol.OneArtistPerName: other writers of artist names are not modelled, since all imports go through one importer.
