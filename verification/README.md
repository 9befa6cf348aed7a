# Library bookkeeping of AnimeWatcherPlus, verified

The application keeps a catalog of anime episodes beside a directory tree. Three operations change the two together
and must keep them in agreement even when the operating system refuses half-way: the sorter moves episodes with their
companion files between folders and takes a failed relocation back; the renamer plans collision-free names and carries
the plan out; the scanner reconciles rows with what is on disk. This project models those three, the functions they are
made of, and the smaller state machines beside them: duplicate groups and the search index, the completeness counts,
path rewriting between machines, the gate in front of AniDB, and the store of one-time secrets.

## How the model is built

- A disk is a map from slots to files. A slot is a directory and a name, folded where the file system ignores case; a
  file keeps the spelling it was created with. Directories are lists of names.
- Whatever the operating system or the clock decides is an argument: which call fails and how, the order in which a
  directory is listed, what a `stat` finds, when a sleep ends. The theorems hold for all of them.
- Each operation is a function from state to state (`Disk`, `Episodes`, `Library`, `Catalog`, `RenamePlan`,
  `AnimeCatalog`, `RequestGate`, `SecurityStore`), and, where the program changes fields in loops, a class whose
  methods do the same and are proved equal to the function (`FileMover`, `Sorter`, `EpisodeRepository`,
  `AnimeRepository`, `AniDbClient`, `SecurityState`, `DirTree`).
- The theorems about whole calls and whole runs are in `LibraryRuns`, `LibrarySafety`, `LibrarySettled`,
  `SortOutcome`, `Companionship`, `Leftovers`, `RenamedTree`, `RenameQueue`, `MergeQueue`, `RollbackExact`,
  `RollbackBeforehand`, `LibraryFrame`, `RequestRows`, `SecurityTraces`, `SecurityCodes`, and at the end of
  `AnimeCatalog` and `RequestGate`. `ReleaseShapes`, `ReleaseNumbers`, `NamingLaws`, `ScanLaws` and `CatalogLaws` say
  what is read off names, written into them and kept in the rows, in terms of what is there to see, not of the
  functions that compute it. `RollbackLimits`, `RenameLimits` and `Instances` show what single calls do, good and bad.

## What the proofs turned up

- A relocation rewrites the rows after all files have moved; an `OSError` from `stat` there is not caught. Which rows
  are then out of step depends on the file that could not be looked at, and the library stays consistent only if it was
  the only one (`StatFailureStrandsRows`, `RowsAreLeftBehind`). A scan of the anime puts it right (`ScanRepairs`).
- Taking a relocation back is not always exact. It fails for a companion spelled in another case than its video, and
  for a stranger's file under the new name (`MisspelledIsRenamed`, `ForeignIsCarriedOff`); for files of different
  episodes these are the only ways, and can be told beforehand (`RelocationIsAllOrNothingBeforehand`). Two copies of
  one episode that differ only in their extension share companions, and the way back can hand the subtitles of one to
  the other (`SharedStemIsNotUndone`).
- Carrying out a rename plan does not always leave nothing to rename. When a planned " (n)" name is held by another
  file as its turn comes, the mover makes it " (n) (2)", which the planner never accepts, and the anime stays in the
  rename queue; otherwise it leaves it (`RenameSettlesIff`). No numbered name need be taken beforehand: a plain name
  that is taken makes its file take the next number, which may be the one planned for the next file
  (`TakenPlainNameStrandsTheNext`).
- The comparison `name != current_name` in the planner is never false (`UnsettledMeansRenamed`).
- A rescan of an anime whose lone file was given its number always reports a change (`RescanIsQuietIff`).
- A bracket left open in a title can swallow the episode marker behind it (`BracketSwallowsMarker`).
- On a case-sensitive disk two copies whose suffixes differ in case are one name to the planner
  (`CaseVariantsCollide`); this is the only way for a relocated anime to be up for renaming (`RelocatedNeedsNoRename`).
- Numbers beyond 64 bits are one number to the database: counts, missing and unassigned episodes then differ from what
  the matcher finds, exactly as `PresentIsMatched`, `MissingListIsCounted` and `UnassignedIffUnmatched` say.
- A mapping to the POSIX root has no way back: it is trimmed to nothing and then passed over (`EverythingIsOneWay`). Of
  the mappings that have one, all give every path back but the root of a drive, which does not survive a mapping to a
  directory (`RoundTrip`).
- `map_path` sorts by the untrimmed length, so two trailing separators can make the shorter prefix win; the exact
  condition is `LongestWinsIff`.
- Paths are rewritten row by row over unique columns, so an import in which two folders trade places is refused
  (`TradingPlacesClashes`).
- `FolderRepo.delete` neither clears pointers nor recomputes flags, but the foreign key refuses exactly the cases in
  which it would have to (`FolderRefusedIff`).

## Model

| member | source | states |
|---|---|---|
| LibraryRuns.RowsAgreeWithDisk | core/app/services/sorter.py:272-390 | from an empty catalog, after any run of scans, sorts, renames, discoveries, identifications, corrections and removals, ended by a return, a conflict or an uncaught error, with files coming and going in between: no two rows name the same path, and every row names a file that exists and lies under its anime's directory, except rows of an anime that has lost files, or whose relocation has left rows behind, and that has not been scanned or removed since; animes that are in step are sorted, renamed and the rest while others are not |
| LibraryRuns.RunKeepsInv | core/app/services/sorter.py:272-753 | the full invariant (rows on disk, one row per file even where the file system ignores case, directories of different animes apart, no row in another anime's directory) survives any run, but for the animes named above, which are identified, corrected and removed like any others but not sorted or renamed before they have been scanned |
| LibraryRuns.SortKeepsInv | core/app/services/sorter.py:272-390 | a sort keeps the invariant whichever branch it takes and wherever it stops, unless it is a relocation that leaves rows behind |
| LibraryRuns.SortSparesOthers | core/app/services/sorter.py:272-390 | and if it is, only rows of the anime sorted are out of step |
| LibraryRuns.SortKeepsRest | core/app/services/sorter.py:272-390 | with other animes out of step already: a sort of an anime in step, into none or one in step, puts at most the anime sorted out of step, if no row of the others lies in its new directory |
| LibraryRuns.RenameKeepsRest | core/app/services/sorter.py:664-753 | a rename of an anime in step leaves all others as they were, in step or not, if no row of theirs lies in the directory's new place |
| LibraryRuns.SortStrandsRows | core/app/services/sorter.py:345-390 | the whole call in which all files move and then one cannot be looked at: how much is out of step depends on which one |
| LibraryRuns.ScanRepairs | core/app/services/scanner.py:367-402 | a scan of an anime, even one that misses files, puts its rows right, whatever they were before, and leaves the others as right as they were |
| LibraryRuns.ScanKeepsInv | core/app/services/scanner.py:367-402 | in particular it keeps the invariant |
| RenameInvariant.RenameKeepsInv | core/app/services/sorter.py:664-753 | so does a rename, also when it stops at a file that cannot be moved |
| LibraryInvariant.MergeKeepsInv | core/app/services/sorter.py:304-337 | the merging branch, stopped at any episode, by a failed move, a failed look at the moved file or a failed unlink of a sidecar, leaves rows and disk in agreement |
| LibraryInvariant.MergeStep | core/app/services/sorter.py:307-324 | one turn of the merge loop at each of its three ways out; the other rows are untouched |
| RelocationInvariant.RelocateKeepsInv | core/app/services/sorter.py:345-390 | the relocating branch keeps the invariant when it goes through and when it has to be taken back |
| RelocationInvariant.RelocateSparesOthers | core/app/services/sorter.py:345-390 | however it ends -- through, taken back, taken back in part, or with an uncaught error -- the rows of all other animes are right, no two rows name one file and none lies in another anime's directory |
| RelocationInvariant.StatFailureStrandsRows | core/app/services/sorter.py:374-377 | if a moved file cannot be looked at while the rows follow, the call ends uncaught; all rows still name existing files if and only if it was the last file, all lie under the anime's (old) directory if and only if it was the first, so the library is consistent if and only if there was one file; no two rows ever name one file |
| RelocationInvariant.BackVideos | core/app/services/sorter.py:365-369 | compensating moves that bring the videos back leave exactly the episodes there were, even if companions are lost on the way |
| RenameInvariant.RenameDirKeepsInv | core/app/services/sorter.py:698-724 | renaming the directory takes every file and every row path along, sub-folders included |
| RenameInvariant.RebasedDisk | core/app/services/sorter.py:709-723 | where each file is after the directory was renamed, both directions |
| RenameInvariant.PlannedAreEpisodes | core/app/services/sorter.py:619-636 | every planned name is again an episode's name |
| LibrarySafety.SortLosesNothing | core/app/services/sorter.py:272-390 | through a whole sort, either branch, any failure point: every content other than that of the three sidecars is afterwards in at least as many complete files as before |
| LibrarySafety.SortDropsOnlyEmptied | core/app/services/sorter.py:304-337 | a sort that has gone through into an anime that was there has dropped the source and its rows if and only if no file with a video's extension is left anywhere below its directory; any other sort drops nothing |
| LibrarySafety.MergeDropsIff | core/app/services/sorter.py:326-331 | the same for the merging branch itself |
| LibrarySafety.SidecarsGo | core/app/services/sorter.py:244-246 | where it has been dropped none of `poster.jpg`, `tvshow.nfo` and `aniinfo.json` is left in its directory |
| Leftovers.NothingStaysBehind | core/app/services/sorter.py:272-390 | a sort into a folder that did not have the anime, gone through, where the walk came upon every file left and all can go: nothing stays below the old directory, and each of those files lies in the new directory under the path it had in the old one, under its own name or a numbered one |
| Leftovers.RelocationTakesAlong | core/app/services/sorter.py:345-390 | for any relocation that has gone through: each file the walk came upon that can go is in its place below the new directory, and the others are where they were |
| Leftovers.LeftoversGo | core/app/services/sorter.py:249-259 | the walk itself, file by file |
| Companionship.SortTakesCompanions | core/app/services/sorter.py:206-223 | through a whole sort, merging or relocating: each companion that can go is afterwards beside what the first video it belongs to has become, called by its new stem and the rest of its own name, or a number of that |
| Companionship.RenameTakesCompanions | core/app/services/sorter.py:728-742 | the same through a whole rename, the directory renamed or not, for a companion that no later file could claim under its new name |
| Companionship.EpisodeTakes | core/app/services/sorter.py:206-223 | the move of one episode, into another directory or within its own |
| SortOutcome.SortRefuses | core/app/services/sorter.py:272-303 | an anime that is not identified, has no matched file, or is to go where it is not yet and has an unmatched one, is refused; two of that id in the folder, or a directory that cannot be made, raise; in all these cases nothing has changed |
| SortOutcome.SortMerges | core/app/services/sorter.py:304-337 | a sort that goes through into a folder that has the anime: each matched row has become one of the anime there, its file in that directory, called by title and episode, with the content it had; the other rows and files are as they were |
| SortOutcome.SortRelocates | core/app/services/sorter.py:345-390 | a sort that goes through into one that has not: the anime is in the folder, in a directory called by its title, each matched row has become one of a file there, called by title and episode, with the content it had, and the other rows are as they were |
| RenamedTree.RenameCarries | core/app/services/sorter.py:664-753 | however a rename ends, the anime's directory is the old one or one beside it that is called by the title, and every file and row has kept its place below it, those elsewhere where they were; no two files have become one, and only matched files and their companions may have got new names |
| RenamedTree.LoopRehouses | core/app/services/sorter.py:728-742 | the file loop takes no file out of its directory, merges none with another and leaves those alone that belong to no file planned for |
| LibrarySafety.RelocationIsAllOrNothingIff | core/app/services/sorter.py:352-372 | a relocation that has to be taken back, its files sharing no companions in the new directory, ends in a conflict and touches no row; the disk (paths, spellings, contents, companions) is what it was if and only if every episode that had moved was, at its turn, one that leaves no trace |
| LibrarySafety.RelocationIsAllOrNothingBeforehand | core/app/services/sorter.py:352-372 | for different episodes the condition is one on the disk before the call: each episode that moves and those of its companions that go along are spelled as the row says, and no file lies where it will land that could be taken for a companion |
| RollbackBeforehand.TracelessIffTidy | core/app/services/sorter.py:352-372 | the condition on each turn and the one on the disk before the first are the same, where the names sent to are no beginnings of one another |
| RollbackBeforehand.LandsAsFirst | core/app/services/sorter.py:158-169 | each of them lands where it would have landed as the first |
| RollbackBeforehand.WentAlong | core/app/services/sorter.py:206-223 | a companion that is gone after the way out went along with one of the episodes |
| LibraryFrame.SortKeepsOtherRows | core/app/services/sorter.py:272-390 | every row of every other anime, the one merged into included, is as it was, whichever branch and wherever it stops |
| LibraryFrame.RenameOnlyPaths | core/app/services/sorter.py:664-753 | a rename changes nothing in the catalog but the anime's directory and its rows' paths |
| RollbackExact.RollbackIsExactIff | core/app/services/sorter.py:352-372 | reverse-order `move_episode_file(dest, src)` restores the disk, where no file that came along could be a companion of two of the videos, if and only if each video and the companions it took along were spelled on disk as the row says and no file in the new directory could be taken for its companion |
| RollbackExact.NoTracesComesBack | core/app/services/sorter.py:352-372 | that condition suffices even where stems are shared |
| Rollback.MoveEpisodeInverseIff | core/app/services/sorter.py:206-223 | the same for one episode: moving it back undoes moving it if and only if it leaves no trace, whichever of its companions had followed and whatever number it was given |
| Rollback.EpisodeShifts | core/app/services/sorter.py:206-223 | a successful move shifts the video and exactly those companions that could follow, all keeping their tails |
| RollbackExact.ArrivalsBelong | core/app/services/sorter.py:358-363 | where no earlier episode left a trace, what is in the new directory at a turn was there before, or is one of them or a companion of one |
| RollbackExact.Arrivals | core/app/services/sorter.py:358-363 | whatever turns up in the new directory before an episode's turn carries the stem under which an earlier one landed |
| RollbackLimits.SharedStemIsNotUndone | core/app/services/sorter.py:352-372 | a whole sort of two copies of one episode and a third file that refuses to move: everything goes back, every single move succeeding, and yet the first copy's subtitles end up with the second |
| RollbackLimits.TakenBackWithoutTrace | core/app/services/sorter.py:352-372 | a whole sort of which one episode moves, with its subtitles, and the next does not: nothing has happened |
| RollbackLimits.MisspelledIsRenamed | core/app/services/sorter.py:352-372 | the same with subtitles spelled in another case: they come back under another name |
| RollbackLimits.ForeignIsCarriedOff | core/app/services/sorter.py:352-372 | the same with a stranger's file under the new name: it is carried off |
| Instances.RowsAreLeftBehind | core/app/services/sorter.py:374-377 | a whole sort of two episodes, both moved, the first of which cannot be looked at: a row names a file that is gone |
| Instances.RunDoesHappen | core/app/services/scanner.py:367-402 | a discovered and scanned episode is a run of the kind the invariant is about, and leaves one row |
| RollbackLimits.CopiesShareCompanions | core/app/services/media_files.py:40-57 | a companion of the one copy is a companion of the other |
| Naming.BuiltStemsUnrelated | core/app/services/sorter.py:132-144 | names built for different episodes never start alike, whatever the case and whatever is put behind them, so different numbers are all the rollback asks of the names |
| LibrarySettled.MergedRowsAreCurrent | core/app/services/sorter.py:307-324 | every row a merge has written, wherever it stopped, is left alone by a later scan, which reads the same number off the new name, if and only if the title has no marker of its own (or one that says the same) and the number at most four digits |
| LibrarySettled.RelocatedRows | core/app/services/sorter.py:352-379 | after a relocation the anime has one row per moved file, as written, and no leftover move has touched those files |
| LibrarySettled.RelocatedRowsAreCurrent | core/app/services/sorter.py:352-379 | the same for the rows of a relocation |
| LibrarySettled.RelocatedNeedsNoRename | core/app/services/sorter.py:582-643 | a relocated anime, with any number of copies per episode, is not in the rename queue if and only if no two of its files landed under names that differ in case alone; where the file system ignores case, or suffixes are lower case, none do |
| MergeQueue.MergedQueueIff | core/app/services/sorter.py:304-337 | wherever a merging sort stops: no file of the anime merged into is up for renaming exactly if all it had before and all it has been given bear the names its own list has for them and no two of them are alike but for case |
| MergeQueue.MergedNeedsNoRenameIff | core/app/services/sorter.py:304-337 | for one that goes through, by a look at the two lists beforehand: exactly if nothing was up for renaming and every episode moved has the same name in both, or is not in the other; suffixes in lower case or a file system that ignores case, and names that do not themselves end in a number in brackets |
| MergeQueue.VariantsTell | core/app/services/sorter.py:646-651 | two names that do not end in a number in brackets have no " (n)" variant in common |
| LibrarySettled.MergedNeedsNoRename | core/app/services/sorter.py:304-337 | a sort that merges, wherever it stops, puts no file of the anime merged into up for renaming, if none was and the lists name the moved episodes alike |
| RenameQueue.LowerDecides | core/app/services/sorter.py:603-629 | two well-named files that differ at most in case are spelled alike, if their extensions are lower case |
| RenameQueue.RenameSettlesIff | core/app/services/sorter.py:664-753 | after a rename that ran to its end, planning again is empty if and only if at every turn whose planned name bears a number nothing but the file itself held that name |
| RenameQueue.QueueAfterRename | core/app/services/sorter.py:664-753 | the same on every file system: and no two files ended up under names that differ in case alone |
| RenameQueue.LoopBears | core/app/services/sorter.py:728-742 | over the file loop, by induction |
| RenameQueue.PlanEmptyIffSettled | core/app/services/sorter.py:582-643 | an empty plan says exactly that every matched row of the anime is called by its name or a variant and no two alike, in whatever order the rows are listed |
| RenameQueue.RenamedRowsReadBack | core/app/services/episode_parse.py:53-63 | a scan after a rename that ran to its end, whatever was in its way, reads a matched file as its episode if and only if the title and the number allow it; the row then written is matched to the same episode |
| RenameLimits.TakenPlainNameStrandsTheNext | core/app/services/sorter.py:664-753 | a whole rename, no numbered name taken when it begins, every move succeeding, that still leaves a file in the queue: a taken plain name makes the first file take the number planned for the second |
| RenameSettled.RenameIsSettled | core/app/services/sorter.py:664-753 | a rename that runs to its end with no planned name taken does exactly what was planned, and planning again yields an empty plan |
| RenameSettled.ClearStaysFree | core/app/services/sorter.py:728-742 | names nobody holds at the start are free when their turn comes |
| RenameSettled.LoopIsExact | core/app/services/sorter.py:728-742 | a loop that has run to its end has given every row its planned path if and only if each planned name was free when its turn came |
| RenameSettled.OccupiedNumberIsDoubled | core/app/services/sorter.py:158-169 | a numbered name lands on a variant of its target if and only if it is free; otherwise the mover appends a second number |
| RenameSettled.NumberedTwiceIsNoVariant | core/app/services/sorter.py:646-651 | no name with two numbers is a variant |
| RenameSettled.OccupiedPlainIsNumbered | core/app/services/sorter.py:158-169 | an unnumbered name that is taken still lands on a variant |
| RenameSettled.StaysInTheQueue | core/app/services/sorter.py:619-636 | a matched file whose name is no variant of its own is renamed by every later plan |
| RenameSettled.CaseVariantsCollide | core/app/services/sorter.py:603-629 | on a case-sensitive disk two well-named copies whose suffixes differ in case still make a plan |
| RenameSettled.PlannedDistinct | core/app/services/sorter.py:630-636 | planned names never coincide, ignoring case, and no file is planned for twice |
| RenameSettled.VariantReadsBack | core/app/services/episode_parse.py:53-63 | every variant of an episode's name, whatever its number, is read as that episode if and only if the title and the number allow it |
| Disk.MoveSucceeded | core/app/services/sorter.py:172-203 | on success only the source leaves, and a destination that was free (or the source's own slot) appears with its content |
| Disk.MoveFailed | core/app/services/sorter.py:172-203 | on failure every file is still there unchanged, at most a prefix of the content is left in one slot that was free, and if the clean-up goes through nothing has changed |
| Disk.MoveNeverOverwrites | core/app/services/sorter.py:172-203 | no file in another slot is ever changed, whatever the operating system answers |
| Disk.MoveSucceedsIff | core/app/services/sorter.py:172-203 | exactly which answers of the operating system make a move succeed |
| Disk.DedupeIsLowest | core/app/services/sorter.py:158-169 | the requested name if nothing else holds it, otherwise the lowest number from 2 that nothing else holds; the source's own slot counts as free |
| Numbering.CountUp | core/app/services/sorter.py:161-169 | the counting loop terminates within the finite set of taken names and returns the lowest free number |
| Numbering.NumberedInjective | core/app/services/sorter.py:163 | different counters never spell the same name, not even ignoring case |
| Numbering.LowestFree | core/app/services/sorter.py:161-169 | there is a lowest free number, at most as far up as names are taken |
| Conservation.MoveKeepsContents | core/app/services/sorter.py:172-203 | a single move loses no content, succeeding, failing or failing half-way |
| Episodes.EpisodeKeepsContents | core/app/services/sorter.py:206-223 | neither does moving an episode with its companions |
| Episodes.EpisodeMovesOneVideo | core/app/services/sorter.py:206-223 | of the videos on disk exactly one changes its place, or on failure none |
| Episodes.TargetIsNoVideo | core/app/services/sorter.py:215-217 | a companion keeps everything after the stem, and so is no video afterwards either |
| Episodes.VideoIsNeverIgnored | core/app/services/media_files.py:12-25 | the two tests for videos agree on every name |
| FileMover.FileSystem.DedupePath | core/app/services/sorter.py:158-169 | computes the specified destination |
| FileMover.FileSystem.Move | core/app/services/sorter.py:172-203 | the calls to the operating system, in order, have the specified effect |
| FileMover.FileSystem.MoveEpisodeFile | core/app/services/sorter.py:206-223 | the companion loop, one companion after another, has the specified effect |
| FileMover.FileSystem.MoveRemainingFiles | core/app/services/sorter.py:249-259 | the best-effort loop over what is left |
| FileMover.FileSystem.RemoveSidecars | core/app/services/sorter.py:244-246 | the three unlinks, up to the first that is refused |
| Sorter.SortService.MergeEpisodes | core/app/services/sorter.py:307-324 | the merge loop over disk and rows |
| Sorter.SortService.MergeInto | core/app/services/sorter.py:304-337 | the merging branch |
| Sorter.SortService.MoveAll | core/app/services/sorter.py:356-363 | the first loop of a relocation, and what it had moved when it stopped |
| Sorter.SortService.UndoMoves | core/app/services/sorter.py:365-369 | the compensation, last move first |
| Sorter.SortService.FollowMoves | core/app/services/sorter.py:374-377 | the rows follow their files |
| Sorter.SortService.RelocateTo | core/app/services/sorter.py:345-385 | the relocating branch |
| Sorter.SortService.SortAnime | core/app/services/sorter.py:272-390 | the whole call: outcome, disk, rows and anime rows |
| Sorter.SortService.RebaseRows | core/app/services/sorter.py:722-723 | every row of the anime follows the directory, path by path |
| Sorter.SortService.RenameFiles | core/app/services/sorter.py:728-742 | the loop over the planned files, ended by the first that cannot be moved |
| Sorter.SortService.RenameAnime | core/app/services/sorter.py:664-753 | the whole call |
| Naming.Sanitize | core/app/services/sorter.py:92-94 | the result is never empty, holds no forbidden character and neither starts nor ends with a blank or a dot |
| Naming.SanitizeKeepsClean | core/app/services/sorter.py:92-94 | a clean name is left as it is |
| NamingLaws.LastMatches | core/app/services/sorter.py:109-122 | of expected episodes with the same number the last listed is the one matched |
| NamingLaws.BuiltName | core/app/services/sorter.py:132-144 | an episode with a title is called title, number and its own title, each of the titles as cleaned |
| NamingLaws.BuiltWithoutName | core/app/services/sorter.py:132-144 | one without is called "Episode" and its number |
| NamingLaws.BuiltFromClean | core/app/services/sorter.py:132-144 | clean titles go into the name as they are |
| NamingLaws.SanitizeDrops | core/app/services/sorter.py:92-94 | every forbidden character is taken out, wherever it stands |
| NamingLaws.SanitizeTrims | core/app/services/sorter.py:92-94 | the ends that are taken off are blanks and dots |
| NamingLaws.SanitizeNothing | core/app/services/sorter.py:92-94 | where nothing else was in it the name is "Unknown" |
| NamingLaws.VideosAre | core/app/services/media_files.py:12-25 | the extensions that make a video, in either case, and no others |
| Naming.NormalizeComparesValues | core/app/services/sorter.py:97-106 | normalized numbers agree exactly for numerals of the same value, however padded |
| Naming.Match | core/app/services/sorter.py:109-122 | a match has the same normalized number, and none is found only if there is none |
| Naming.MatchLocalEpisodes | core/app/services/sorter.py:109-122 | the index built in one loop and consulted in the next finds for every file what searching the list would |
| Naming.NameReadsBack | core/app/services/sorter.py:132-144 | the scanner reads every built name, whatever numbers were added to it, as the episode it was built for if and only if the title has no marker of its own (or one that says the same) and the number at most four digits |
| ReleaseName.GuessOfBuilt | core/app/services/episode_parse.py:53-63 | exactly when a built name reads back: the title has no marker of its own (or one saying the same) and the number has at most four digits |
| ReleaseName.BracketSwallowsMarker | core/app/services/episode_parse.py:54 | a bracket left open in the title and closed later swallows the marker |
| ReleaseName.Guess | core/app/services/episode_parse.py:53-129 | an answer is always a plain number without padding |
| ReleaseShapes.EveryNameHasLayout | core/app/services/episode_parse.py:53-55 | every name in which no square bracket is left open is words with blanks, dashes and bracketed groups between them, so the next six cover all of those |
| ReleaseShapes.ReadsSeasonEpisode | core/app/services/episode_parse.py:57-63 | a name that says "S01E05" is read by the first place that does, whatever else is in it |
| ReleaseNumbers.ReadsMarked | core/app/services/episode_parse.py:73-79 | otherwise the first number with an episode word before it ("Ep05", "#04") wins over all others |
| ReleaseNumbers.ReadsBare | core/app/services/episode_parse.py:81-109 | otherwise the first number that is no year, but not one that opens the name if another follows |
| ReleaseNumbers.ReadsBracketed | core/app/services/episode_parse.py:82-87 | only where there is none of these the first number that is alone in square brackets |
| ReleaseNumbers.ReadsNothing | core/app/services/episode_parse.py:82-87 | with none of them no number is read; a year alone is none |
| ReleaseNumbers.DotsAreBlanks | core/app/services/episode_parse.py:65-67 | a name without blanks that has two dots or more is read as if they were blanks |
| ReleaseNumbers.TitleDashNumber | core/app/services/episode_parse.py:53-92 | the common shape, "Title - 05 [1080p].mkv": words, a dash, digits that are no year, any groups; the digits are the number |
| RenamePlan.FinalNamesDistinct | core/app/services/sorter.py:609-636 | for every plan, final names are distinct per directory ignoring case, and each is its canonical name or a numbered variant |
| RenamePlan.KeepsNameIff | core/app/services/sorter.py:619-629 | exactly which files keep their name |
| RenamePlan.PlanEmptyIff | core/app/services/sorter.py:619-636 | exactly when nothing needs renaming; the order of the files has no say |
| RenamePlan.UnsettledMeansRenamed | core/app/services/sorter.py:631-636 | the test `name != current_name` never holds a rename back |
| RenamePlan.PlanIsSettled | core/app/services/sorter.py:582-643 | applying a plan (directory and files at once) and planning again yields an empty plan |
| RenamePlan.FreeVariantIsLowest | core/app/services/sorter.py:654-661 | the canonical name if not reserved, otherwise the lowest free number |
| RenamePlan.FreeNameVariant | core/app/services/sorter.py:654-661 | the counting loop, terminating |
| RenamePlan.ReserveNames | core/app/services/sorter.py:617-629 | the first loop computes which files are settled and the names they reserve |
| RenamePlan.NameTheRest | core/app/services/sorter.py:631-636 | the second loop computes the renames, at most one for each file put aside |
| RenamePlan.ComputeRenamePlan | core/app/services/sorter.py:582-643 | the planner as it runs computes the specified plan |
| RenamePlan.DotStemHasNoExtension | core/app/services/media_files.py:24-25 | a video whose stem is all dots loses its extension in the plan: why such names are set aside |
| Catalog.ScanIsHistoryFree | core/app/services/scanner.py:367-402 | an anime's rows after a scan are a function of the listing, the manual overrides and the expected list alone |
| Catalog.ScanKeepsOthers | core/app/services/scanner.py:367-402 | no other anime's row changes |
| Catalog.ScanIsIdempotent | core/app/services/scanner.py:367-402 | scanning twice equals scanning once |
| Catalog.RescanIsQuietIff | core/app/services/scanner.py:371-402 | a second scan of an unchanged directory reports a change exactly when the lone-file rule applies |
| Catalog.SkippedIsRight | core/app/services/scanner.py:378-388 | a skipped file has exactly the row it would have been given |
| ScanLaws.ScanReads | core/app/services/scanner.py:367-402 | after a scan a listed file has one row, with its size and time, and with the number set by hand if one was, else the one of the only episode if it is the only file, else the one its name is read as |
| ScanLaws.ManualSticks | core/app/db/repositories.py:506-517 | a number set by hand is still there after any scan that lists the file |
| EpisodeRepository.EpisodeRepo.Upsert | core/app/db/repositories.py:478-497 | size and time are refreshed, a number set by hand is kept, a new path gets a new row |
| EpisodeRepository.EpisodeRepo.SetManual | core/app/db/repositories.py:506-517 | a number set by hand sticks, none hands the row back to the parser |
| EpisodeRepository.EpisodeRepo.DeleteByPath | core/app/db/repositories.py:519-521 | exactly the rows of that path go |
| EpisodeRepository.EpisodeRepo.ByPath | core/app/services/scanner.py:369 | the rows of the anime by path |
| EpisodeRepository.EpisodeRepo.AssignLone | core/app/db/completeness.py:239-261 | the lone-file rule, the number as the database casts it |
| EpisodeRepository.EpisodeRepo.RefreshListed | core/app/services/scanner.py:370-396 | the first loop, and whether it has anything to report |
| EpisodeRepository.EpisodeRepo.SweepGone | core/app/services/scanner.py:397-400 | the second loop, in whatever order |
| EpisodeRepository.EpisodeRepo.ProcessListing | core/app/services/scanner.py:367-402 | the reconciliation: rows, other animes' rows and the reported change |
| Debounce.StabilizeAndProcess | core/app/services/scanner.py:231-261 | at the first moment the place has shown the same, and not nothing, for the configured row of looks, a directory is scanned and a loose video of a download folder makes the whole folder be scanned; nothing is done once it is gone; with no looks asked for it acts at once |
| DirTree.Tree.RemoveDirIfEmpty | core/app/services/media_files.py:60-70 | either a file is left and nothing changes, or the whole tree goes and no `rmdir` is refused |
| DirTree.ParentIsLess | core/app/services/media_files.py:67 | in the order used, a directory comes before everything below it, so in reverse after |
| Completeness.MissingIsCounted | core/app/db/completeness.py:38-121 | expected minus present is the grouped missing count |
| Completeness.MissingForAnime | core/app/db/completeness.py:123-146 | each missing number once by its full value, in the database's order |
| Completeness.MissingListIsCounted | core/app/db/completeness.py:123-146 | the list is as long as the count says if and only if at most one missing number is beyond 64 bits |
| Completeness.PresentIsMatched | core/app/db/completeness.py:100-112 | present is the number of distinct episodes the matcher finds a file for if and only if nothing beyond 64 bits is expected, or nothing such is there, or exactly one number is both |
| Completeness.UnassignedIffUnmatched | core/app/db/completeness.py:171-201 | unassigned files are the matcher's unmatched ones not numbered by hand, where there is a numbered episode at all, except exactly those whose number is beyond 64 bits, is not expected, and another such number is |
| Completeness.HugeNumbersDiffer | core/app/db/completeness.py:30-34 | beyond 64 bits counting and matching differ |
| Completeness.LoneFileCompletes | core/app/db/completeness.py:239-261 | an anime whose lone file was given its number is complete; the matcher agrees if and only if that number, as cast, is the expected one |
| AnimeCatalog.RunKeepsRight | core/app/db/repositories.py:91-320 | after any run of creations, identifications, removals (single and by folder), title resyncs and repairs: flagged exactly if a lower id shares the AniDB id, pointing at the lowest, and one index row per anime, equal to a rebuild |
| AnimeCatalog.IdentifyKeepsRight | core/app/services/identification.py:198-260 | re-identification repairs the group joined and the group left |
| AnimeCatalog.RecomputeRepairs | core/app/db/repositories.py:172-196 | recomputing a group puts its flags right and leaves the others alone |
| AnimeCatalog.DeleteKeepsRight | core/app/db/repositories.py:140-170 | removing one anime, the lowest of its group included |
| AnimeCatalog.DeleteFolderKeepsRight | core/app/db/repositories.py:63-88 | removing a folder recomputes nothing, and where the database allows it all flags are still right |
| AnimeCatalog.FolderRefusedIff | core/app/db/repositories.py:63-88 | the foreign key refuses a folder exactly if the lowest of some group is inside and another member outside |
| AnimeCatalog.RewriteKeepsRight | core/app/services/titles.py:108-169 | a job that rewrites titles and indexes only what it touched keeps the index right |
| AnimeCatalog.TurnsAreHonest | core/app/services/repair.py:117-155 | both jobs mark every row whose title or variants they change |
| AnimeCatalog.IndexIsRebuilt | core/app/db/repositories.py:222-242 | as multisets, the index and its rebuild are the same |
| AnimeCatalog.EveryTitleIsIndexed | core/app/db/repositories.py:222-242 | every alternative title and every language variant occurs in the indexed text |
| CatalogLaws.ResolvesFirst | core/app/domain/titles.py:72-82 | the title shown is the first in the order asked for that there is, or else the one there was |
| CatalogLaws.TurnShowsFirst | core/app/services/titles.py:108-169 | so after one row's turn in either job, whichever variants it has or finds |
| CatalogLaws.JobsShowFirst | core/app/services/titles.py:108-169 | and so for every anime after a whole resync or repair; the others and everything else about them are as they were |
| CatalogLaws.CreateAdds | core/app/db/repositories.py:116-122 | a row that is not identified is added, the others stay |
| CatalogLaws.IdentifyWrites | core/app/services/identification.py:198-260 | an identified anime has the id and titles found and shows the first in the order; the others differ in their flags at most |
| CatalogLaws.DeleteRemoves | core/app/db/repositories.py:140-170 | the anime is gone and the others differ in their flags at most |
| CatalogLaws.DeleteFolderRemoves | core/app/db/repositories.py:63-88 | all animes of the folder go and no others, unchanged, unless a duplicate outside points inside |
| CatalogLaws.IndexSays | core/app/db/repositories.py:222-242 | an index that is right has one row for each anime and none for any other, with the title shown and, once each, all the others it is known by, and nothing else |
| AnimeRepository.AnimeRepo.RecomputeDuplicateFlags | core/app/db/repositories.py:172-196 | the loop over the group in id order |
| AnimeRepository.AnimeRepo.SyncFts | core/app/db/repositories.py:222-242 | delete, then insert |
| AnimeRepository.AnimeRepo.CreatePending | core/app/db/repositories.py:116-122 | a new row is indexed at once |
| AnimeRepository.AnimeRepo.Delete | core/app/db/repositories.py:140-170 | pointers cleared, index row and row removed, group recomputed |
| AnimeRepository.AnimeRepo.DeleteFolder | core/app/db/repositories.py:63-88 | all rows of the folder or none |
| AnimeRepository.AnimeRepo.ApplyIdentification | core/app/db/repositories.py:244-320 | whichever namesake the query returns first |
| AnimeRepository.AnimeRepo.FinalizeIdentification | core/app/services/identification.py:175-260 | flags and index right afterwards, also when the database refuses the row; other rows change at most their flags |
| AnimeRepository.AnimeRepo.Rewrite | core/app/services/titles.py:136-161 | both loops of the title jobs |
| PathMap.MapPath | core/app/services/snapshot.py:74-89 | none exactly if no trimmed, non-empty source is a prefix at a component boundary; otherwise the mapping first in the sorted order of those that apply |
| PathMap.FindMapping | core/app/services/snapshot.py:74-89 | the loop over the sorted mappings |
| PathMap.LongestWinsIff | core/app/services/snapshot.py:74-89 | the longest matching prefix wins on every path if and only if, wherever one prefix lies inside another, the inner one's mapping is tried first |
| PathMap.OneSeparatorSuffices | core/app/services/snapshot.py:78 | which holds where no source ends in more than one separator |
| PathMap.TwoSeparatorsMislead | core/app/services/snapshot.py:78 | and can fail with two, since the untrimmed length is sorted by |
| PathRoundTrip.RewriteMovesNames | core/app/services/snapshot.py:84-88 | a mapping takes every path below its source to the same names below its target, in the target's style; only where nothing but a drive or the POSIX root is left does that lose the root, unless the path had one to give, and what is left of the POSIX root is "."; a mapping from the POSIX root maps nothing |
| PathRoundTrip.RoundTrip | core/app/services/snapshot.py:74-89 | there is a way there exactly if the trimmed source is not empty, and a way back exactly if the trimmed target is not; the two are the identity, across Windows and POSIX styles, if and only if moreover the path is not the root of a drive sent to something other than a root, which comes back without its root |
| PathRoundTrip.BareDriveIsLost | core/app/services/snapshot.py:84-88 | a drive mapped to a POSIX directory: its root is lost on the way back, and mapped to the POSIX root it has none |
| PathRoundTrip.EverythingIsOneWay | core/app/services/snapshot.py:79-89 | a mapping to the POSIX root works one way only: nothing below it is mapped back, and the folder itself becomes "." |
| PathRoundTrip.NothingFromEverything | core/app/services/snapshot.py:80-82 | a mapping whose source is nothing but separators is passed over, whatever the path |
| SnapshotImport.RewriteColumn | core/app/services/snapshot.py:222-231 | one row at a time over a unique column: it goes through exactly if no new path equals an earlier row's new or a later row's old one |
| SnapshotImport.TradingPlacesClashes | core/app/services/snapshot.py:222-231 | two folders, neither of them the POSIX root, that trade places are refused although the rewritten paths are all different |
| RequestGate.RequestsAreLimited | core/app/providers/base.py:56-70 | over any run of fetches and status queries: minimum distance between requests, at most the cap charged to any day, no request during a ban or a pause |
| RequestGate.WindowBound | core/app/providers/base.py:56-70 | no window holds more requests than fit at the minimum interval, plus one |
| RequestGate.SpacingAdds | core/app/providers/base.py:56-70 | requests n apart in the sequence are n intervals apart in time |
| RequestGate.AcquireAccounts | core/app/providers/base.py:56-70 | what the limiter's fields say about the requests let through, kept by every call |
| RequestGate.BlockedIffNothingSent | core/app/providers/anidb.py:96-111 | no reason is reported exactly when an uncached fetch at that instant gets as far as sending a request; asking changes nothing for the fetch |
| RequestGate.FewRequests | core/app/providers/anidb.py:206-241 | one fetch sends at most three requests |
| RequestGate.OpensAfterARow | core/app/providers/base.py:83-106 | the breaker opens with the failure that completes the row and not before; a success clears it |
| RequestRows.LastReplyDecides | core/app/providers/anidb.py:169-241 | every reply to a fetch but the last was a failed request, and the last one decides what comes of it |
| RequestRows.RowPauses | core/app/providers/anidb.py:169-204 | over runs, from replies alone: the fetch that completes a row of as many failed ones as the threshold, no data between, is followed by the cooldown, during which nothing is sent |
| RequestRows.ShortRowLetsThrough | core/app/providers/anidb.py:175-178 | short of that only a ban or the cap holds a fetch |
| RequestRows.DataClears | core/app/providers/base.py:98-100 | a fetch that brings data clears the row |
| RequestRows.PauseEnds | core/app/providers/base.py:83-90 | when the cooldown has passed the row starts from nothing |
| RequestRows.TimeLeftIsExact | core/app/providers/base.py:92-96 | the time left is the time until the breaker lets a request through again |
| AniDbClient.RateLimiter.Acquire | core/app/providers/base.py:56-70 | day change, cap and charge |
| AniDbClient.CircuitBreaker.IsOpen | core/app/providers/base.py:83-90 | closing once the pause is over |
| AniDbClient.CircuitBreaker.RemainingS | core/app/providers/base.py:92-96 | zero when closed |
| AniDbClient.CircuitBreaker.RecordFailure | core/app/providers/base.py:102-106 | opening at the threshold |
| AniDbClient.AniDbProvider.IsBlocked | core/app/providers/anidb.py:96-111 | the three reasons, in order |
| AniDbClient.AniDbProvider.RequestWithRetry | core/app/providers/anidb.py:206-241 | the retry loop and the requests it sends |
| AniDbClient.AniDbProvider.GetXml | core/app/providers/anidb.py:169-204 | cache, gating, outcome, what it does to ban and breaker, and the ban as stored |
| AniDbClient.AniDbProvider.LoadBanState | core/app/providers/anidb.py:113-131 | a restart does not lift a ban |
| AniDbClient.BlockWatcher.Check | core/app/services/anidb_watch.py:43-60 | each resume callback has been called exactly once for every blocked-to-unblocked change seen so far, whichever others fail |
| SecurityTraces.ChallengeAcceptedIff | core/app/security/store.py:83-97 | a challenge succeeds if and only if it is for that device, untried, unexpired, and no new one has ever found 999 issued after it still held; never more than a thousand are held |
| SecurityTraces.TriedIsTried | core/app/security/store.py:93-97 | once tried, right or wrong, it never succeeds again |
| SecurityCodes.SetupAcceptedIff | core/app/security/store.py:117-134 | the setup code works exactly if it is the last one issued, unused, and guessed wrong fewer than five times |
| SecurityCodes.PairingAcceptedIff | core/app/security/store.py:136-157 | a pairing code works if and only if it is unused, within its five minutes, before the fifth wrong guess, and no new code has ever found four issued after it still open; never more than five are open |
| SecurityCodes.SessionValidIff | core/app/security/store.py:99-113 | a token is valid exactly until it expires or its device is logged out, and for that device |
| SecurityStore.DashesDoNotMatter | core/app/security/store.py:27-37 | a code is recognised with or without the dashes it is shown with |
| SecurityStore.CodesMatchIff | core/app/security/store.py:27-37 | what is typed is taken for a code exactly if they are the same letters and digits, in either case and whatever is between them |
| SecurityState.State.IssueChallenge | core/app/security/store.py:83-91 | purge, make room, add |
| SecurityState.State.OpenSession | core/app/security/store.py:99-103 | purge, add |
| SecurityState.State.LogOut | core/app/security/store.py:111-113 | all sessions of the device go |
| SecurityState.State.IssueSetupCode | core/app/security/store.py:117-120 | the one before is forgotten |
| SecurityState.State.TryChallenge | core/app/security/store.py:93-97 | purge, remove, compare |
| SecurityState.State.TrySetupCode | core/app/security/store.py:122-134 | used up by the right guess or the fifth wrong one |
| SecurityState.State.IssuePairingCode | core/app/security/store.py:136-140 | the last four open ones stay |
| SecurityState.State.TryPairingCode | core/app/security/store.py:146-157 | both passes over the open codes |

## Left out

- LibraryRuns.RowsAgreeWithDisk: an anime that is out of step is not sorted, merged into or renamed before it has been scanned, and no directory becomes an anime's while rows of one out of step lie in it; the database would refuse some of the paths such a rename writes (core/app/db/models.py:123), which the model of a rename does not look for. Directories are listed completely or not at all, a relocation's target is nobody's directory, and nothing outside the application changes the disk within a call.
- LibraryRuns.RunKeepsInv: likewise.
- LibraryRuns.SortKeepsInv: sets aside the two ways in which a relocation leaves rows behind, which `SortSparesOthers` and `SortStrandsRows` are about. That the target folder is not the anime's own is what the callers see to: they sort from download folders into content folders (core/app/api/sort_queue.py:62-72, core/app/services/sorter.py:529-540).
- RelocationInvariant.RelocateKeepsInv: sets aside the same two ways; `RelocateSparesOthers` covers every relocation.
- LibrarySafety.RelocationIsAllOrNothingIff: for files no two of which could claim the same companion where they land. Copies of one episode that differ in their extension do share them; there `NoTracesComesBack` says what suffices and `SharedStemIsNotUndone` what can go wrong, without an exact condition. A companion spelled like another video of the same directory, but not like its own, is set aside (`KnowTheirVideo`).
- LibrarySafety.RelocationIsAllOrNothingBeforehand: for episodes of different numbers.
- RollbackExact.RollbackIsExactIff: as `RelocationIsAllOrNothingIff`.
- RenameSettled.RenameIsSettled: a condition that can be looked up before the call, and sufficient; `RenameQueue.RenameSettlesIff` has the exact one, which follows the call.
- LibrarySettled.MergedNeedsNoRename: sufficient, wherever the merge stops; `MergeQueue.MergedQueueIff` has the exact condition, which follows the call, and `MergeQueue.MergedNeedsNoRenameIff` one to be looked up before it.
- LibrarySettled.MergedRowsAreCurrent: titles in which a bracket is left open that an episode's name closes are set aside; `BracketSwallowsMarker` is about those.
- LibrarySettled.RelocatedRowsAreCurrent: likewise.
- PathRoundTrip.RoundTrip: places are spelled with drives "X:" or shares "\\server\share", or with the POSIX root, or with POSIX roots and names; drive-relative paths, "." and device paths ("\\?\") are not places.
- AnimeRepository.AnimeRepo.Rewrite: of repairs beyond titles -- years, descriptions, posters and added episodes -- it only has that the row was touched.
- AniDbClient.AniDbProvider.GetXml: what the cache holds and when an entry is stale is given from outside; the XML is not parsed.
- RequestGate.RequestsAreLimited: takes the clocks as not running backwards and sleeps as at least as long as asked; one fetch at a time. A request that sleeps past midnight is charged to the day it was asked for.
- Directories as objects: a directory under a file's name would count as taken in the program and does not here; `mkdir` can fail, but which empty directories exist is only modelled in `DirTree`; `_cleanup_source_dir` is otherwise an effect on empty directories alone.
- ReleaseNumbers.ReadsBare: names in which a square bracket is left open have no layout; names without blanks that have two dots or more go through `DotsAreBlanks`.
- ReleaseNumbers.ReadsMarked: likewise.
- SortOutcome.SortRelocates: sets aside the relocations that leave rows behind, as `SortKeepsInv`.
- Companionship.RenameTakesCompanions: a companion that a file renamed later could claim, its stem being the beginning of the new name or the other way round, may be renamed once more.
- A file system that ignores case is modelled for files; directories are told apart letter by letter, so a rename that changes nothing but the case of a directory's name never meets itself.
- Hard links and symbolic links: two paths are the same file only if they share a slot.
- Upper and lower case, digits and blanks outside ASCII; case folding that changes lengths.
- Files whose stem is nothing but dots: set aside from runs, see `DotStemHasNoExtension`.
- The title a release name stands for, `parse_release_filename` other than the episode number, and the grouping of loose files.
- Two animes of one folder under one AniDB id: `_find_target_anime` raises, and so does the model.
- The review queue an anime goes to when the database refuses its identification.
- Identification interrupted between its commits, and interleavings within an await: every repository call is one step.
- Title variants picked from a provider's list, their ranking, and fuzzy matching.
- Join requests, tokens' and codes' randomness, hashing and constant-time comparison: secrets are given and never drawn twice.
- `kept_empty_dirs` in a snapshot, and copying the tables; only the rewriting of a path column is modelled.
- HTTP, XML, caching on disk, the event bus, the job queue, the user interface and the download plugins.
- `all_missing`, `episode_choices`, `list_incomplete` and the queue listings: the same queries over several animes, and sorting for display.
