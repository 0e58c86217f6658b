# desktop-cleaner, modelled in Dafny

This project models the core of *desktop-cleaner*, two small Python tools over
a user's folders:

- **cleaner.py** moves the loose files of the source folders (Desktop,
  Downloads, Videos) into one folder per category (Pictures, Videos,
  Documents, Music), chosen by extension. A name that is taken in the target
  folder gets a numbered suffix, `name(1).ext`, `name(2).ext`, and so on.
  Every run that moves something appends one batch of move records to a JSON
  history. `--undo` pops the newest batch and moves its files back, newest
  first. It skips any file that has gone and any whose old place is taken.
- **analyser.py** walks each folder and counts its files, subfolders, files
  per depth, extensions, naming patterns and files older than six months.
  It then turns the counts of all folders into a score out of 100 and a list
  of penalties.

The modules follow the source:

| module | what it holds |
|---|---|
| `Wrappers` | `Option` |
| `Text` | the string helpers Python provides: `lower`, `startswith`, `in`, `count`, `os.path.splitext`, decimal formatting |
| `FileSystem` | folders as a map from folder path to its listing; `makedirs` and `shutil.move` as functions on it |
| `Categories` | the extension table, the ignored names and extensions, `get_category` |
| `UniqueNames` | the numbered renaming of `get_unique_filename`: a function and the loop that computes it |
| `History` | move records, batches, the history file (missing, unparseable or stored), replaying a chain of moves |
| `Organizer` | `organize_files` as functions (one file, one listing, all sources, whole run) and what a run guarantees |
| `Restore` | `undo_last_run` as functions, and the lemmas that connect undo to organize |
| `Cleaner` | class `Workspace`: the file system and history file as fields, and the two commands as methods proved equal to the functions |
| `Analyzer` | `analyze_directory` as a fold over the walk, what the counters satisfy, and the loop itself |
| `Scorer` | `calculate_score` as functions, its rules and bounds, and the loops themselves |

An organize that moves nothing writes no batch (cleaner.py:129-134). An undo
right after it therefore pops the batch of the previous run and moves those
files back; it is a no-op only when the history is empty.
`Restore.OrganizeNothingThenUndo` states this.

## Model

| member | source | states |
|---|---|---|
| `Categories.GetCategory` | cleaner.py:34-40 | the category returned is exactly the one whose extension set holds the lowercased extension; None exactly when no set holds it |
| `Categories.ExtensionTableDisjoint` | cleaner.py:22-27 | no extension is listed under two categories, so the first match in table order is the only one |
| `Text.SplitExt` | cleaner.py:44 | stem and extension concatenate to the name; a non-empty extension starts at the last dot and has a non-dot before it; with no extension, no dot has a non-dot before it |
| `Text.SplitExtInsert` | cleaner.py:48 | putting a dot-free infix between stem and extension leaves the extension unchanged and grows the stem |
| `Text.NatToStringInjective` | cleaner.py:48 | different counters are printed as different digit strings |
| `Text.CountCharAppend` | analyser.py:36 | the count of a character in a concatenation is the sum of the counts |
| `UniqueNames.CandidateInjective` | cleaner.py:48 | the suffixed names for different counters differ |
| `UniqueNames.CandidateKeepsExtension` | cleaner.py:48 | a suffixed name keeps the original extension |
| `UniqueNames.Pigeonhole` | cleaner.py:47-49 | if every counter from 1 to m gives a taken name, then at least m names are taken, so the counter loop ends |
| `UniqueNames.FirstFreeIndex` | cleaner.py:45-49 | the counter the loop stops at gives a free name, and every smaller counter's name is taken |
| `UniqueNames.UniqueName` | cleaner.py:42-50 | the name is not taken; it is the name itself when that is free, otherwise the suffixed name with the smallest free counter |
| `UniqueNames.UniqueFilename` | cleaner.py:42-50 | the loop returns `UniqueName` of the target folder's entries, and no file exists at the returned path |
| `FileSystem.MakeDirs` | cleaner.py:111-112 | the folder exists afterwards, an existing folder keeps its listing, no other folder changes, and the set of files is unchanged |
| `FileSystem.Move` | cleaner.py:118 | the set of files loses the source path and gains the destination path, and folders other than the two involved are unchanged |
| `History.ChainSnoc` | cleaner.py:121-124 | appending one move to a chain moves one path in the replayed file set; the chain stays valid exactly when that file is present and its destination is free |
| `Organizer.Destination` | cleaner.py:93-109 | a file is moved exactly when its name and extension are not ignored, it has a category, and that category's folder is not the source; the folder is the category's target |
| `Organizer.ProcessFile` | cleaner.py:91-127 | either nothing moves and the file set is unchanged, or exactly one move is recorded. A move is recorded exactly when there is a destination, the file exists and the move does not raise. The record goes from the source path to the destination under `UniqueName`. Every folder other than the source and that destination keeps its listing unchanged |
| `Organizer.IgnoredStaysPut` | cleaner.py:93-100 | a file on the ignore list, hidden, or with an ignored extension is left where it is and nothing is recorded |
| `Organizer.ProcessListing` | cleaner.py:91-127 | earlier records are kept, each listed file adds at most one record, and every new record moves a listed file out of the source |
| `Organizer.VisitSource` | cleaner.py:78-127 | a missing or unreadable source changes nothing; otherwise earlier records are kept and every new record moves a file out of that source |
| `Organizer.ProcessSources` | cleaner.py:77-127 | earlier records are kept and every new record moves a file out of one of the sources |
| `Organizer.OrganizeRun` | cleaner.py:65-127 | every record of a run takes a file out of a source folder into a category folder other than the one it was in |
| `Organizer.SourcesProper` | cleaner.py:77-127 | every record of a run from an empty list is proper and starts in a source folder |
| `Organizer.Organize` | cleaner.py:65-134 | the history file is untouched when nothing moved; otherwise it holds the old history plus one batch with the timestamp and exactly the run's records. The new file system is the run's and the count is its number of records |
| `Organizer.ProcessFileProper` | cleaner.py:93-115 | a recorded move is proper: its file is not ignored, has a category, goes to that category's folder from another folder, under its own name or a numbered renaming |
| `Organizer.ExtendsChained` | cleaner.py:118-124 | a step that records one move done on the file system keeps the records a valid chain that explains the file set |
| `Organizer.ExtendsProper` | cleaner.py:121-124 | a step that records one proper move from an allowed source keeps every new record proper |
| `Organizer.ExtendsSound` | cleaner.py:91-127 | one step of the inner loop keeps a run sound: the records are chained, proper and framed |
| `Organizer.ProcessFileSound` | cleaner.py:91-127 | processing one file keeps a run sound |
| `Organizer.ProcessListingSound` | cleaner.py:91-127 | processing a whole listing keeps a run sound |
| `Organizer.ProcessSourcesSound` | cleaner.py:77-127 | processing the source folders in turn keeps a run sound |
| `Organizer.OrganizeRunSound` | cleaner.py:65-127 | the records of a run replay, in order, as moves of present files to free paths. Replayed, they give exactly the new file set. Every record is proper and starts in a source folder. Folders that are neither sources nor targets are untouched |
| `Organizer.ProperListMembers` | cleaner.py:121-124 | every record in a proper list is proper and starts in an allowed folder |
| `Organizer.ProperMoveIsFinal` | cleaner.py:102-109 | a file the organizer has put in place is left alone by a later run: its extension, and so its category, send it to the folder it is in |
| `Restore.RestoreOne` | cleaner.py:152-172 | a record is skipped as missing exactly when nothing is at its new path; as occupied exactly when its original path is taken; as failed exactly when the move back raises. A restored record moves one path back in the file set. A skipped record leaves the file set unchanged |
| `Restore.RestoreAll` | cleaner.py:149-172 | the restored count never exceeds the number of records |
| `Restore.Undo` | cleaner.py:136-175 | with an empty history nothing changes and the count is 0. Otherwise the saved history is the old one without its last batch, whatever happened to the records, and at most that batch's length are restored; the files and the count are those of replaying that batch newest first |
| `Restore.RestoreAllReversesChain` | cleaner.py:152-168 | undoing, newest first, a valid chain of moves that took file set s to the current one gives back exactly s and restores every record |
| `Restore.OrganizeThenUndo` | cleaner.py:65-175 | organize that moved something, followed at once by undo with no failing move, puts every file back, restores as many files as were moved, and leaves the history as it was before |
| `Restore.OrganizeNothingThenUndo` | cleaner.py:129-144 | after an organize that moved nothing, undo is a no-op only on an empty history; otherwise it pops and replays the previous run's batch |
| `Restore.UndoEmptyTwice` | cleaner.py:138-142 | with an empty history, undo changes nothing and gives the same result when run twice |
| `Restore.UnreadableHistoryStartsFresh` | cleaner.py:52-59 | a missing or unparseable history file reads as empty: undo then changes nothing, and an organize that moves something writes a history holding only its own batch |
| `Cleaner.Workspace.OrganizeFiles` | cleaner.py:65-134 | the loop over sources and listings ends in exactly the disk and count that `Organize` describes |
| `Cleaner.Workspace.OrganizeFile` | cleaner.py:91-127 | one pass of the inner loop takes the file system and records to `ProcessFile`'s result and leaves the history file alone |
| `Cleaner.Workspace.UndoLastRun` | cleaner.py:136-175 | the loop over the reversed batch ends in exactly the disk and count that `Undo` describes |
| `Cleaner.Workspace.RestoreFile` | cleaner.py:153-172 | one record is handled as `RestoreOne` says, and true is returned exactly when the file was moved back |
| `Analyzer.Depth` | analyser.py:35-36 | the depth is 0 exactly for the walk's root "." |
| `Analyzer.ChildDepth` | analyser.py:33-36 | a subfolder, named without a separator, lies exactly one level below its parent |
| `Analyzer.Classify` | analyser.py:59-66 | the label is the first pattern, in the order the source tests them, that the name matches; no label exactly when no pattern matches |
| `Analyzer.SumInc` | analyser.py:39 | adding n under one key of a counter adds n to its total |
| `Analyzer.SumRemove` | analyser.py:39-47 | a counter's total is one key's value plus the total of the rest |
| `Analyzer.SumPositive` | analyser.py:88-89 | a counter's total is positive exactly when some key holds a positive value |
| `Analyzer.AddFile` | analyser.py:44-66 | one file adds one to the file total, one to the count of its lowercased extension and to no other, one to the count of its first matching label and to no other (none when no pattern matches), and one to the old count only when its readable mtime is older than the cutoff; folders, loose files and depths are not touched |
| `Analyzer.AddFileSums` | analyser.py:45-66 | one file adds one to the extension totals and at most one to the pattern totals |
| `Analyzer.AddFilesSums` | analyser.py:44-66 | a folder's files add their number to the file total and to the extension totals, and at most that many to the pattern and old totals |
| `Analyzer.VisitNodeConsistent` | analyser.py:33-66 | visiting a folder keeps the counters consistent: files equal the depth total and the extension total, loose files equal the depth-0 count, and patterns and old files never exceed files |
| `Analyzer.WalkStats` | analyser.py:33-66 | the whole walk keeps the counters consistent |
| `Analyzer.Analyze` | analyser.py:16-68 | the result is None exactly when the folder does not exist; otherwise the result is the walk's fold from zeroed counters with the six-month cutoff, and those counters end consistent |
| `Analyzer.AddFilesCounts` | analyser.py:44-66 | a folder's files add exactly their number of old files to the old count, their number with extension e to e's count, and their number labelled p to p's count; folders and depths are not touched |
| `Analyzer.WalkStatsCounts` | analyser.py:33-66 | after the walk, the folder total is the sum of each visited folder's subfolders; each depth's count is the number of files in folders at that depth; the old count is the number of old files; each extension's count is the number of files with that lowercased extension; and each label's count is the number of files `Classify` gives that label |
| `Analyzer.AnalyzeDirectory` | analyser.py:16-68 | the loops compute exactly `Analyze`, and return None exactly when the folder does not exist |
| `Analyzer.CountFiles` | analyser.py:44-66 | the inner loop computes exactly `AddFiles` |
| `Analyzer.CountFile` | analyser.py:45-66 | the loop body computes exactly `AddFile` |
| `Scorer.LookupFirst` | analyser.py:76 | a folder found in the map is found at its first entry |
| `Scorer.DeepFiles` | analyser.py:88 | the loop sums the files at depths beyond 5, and the sum is positive exactly when some such depth holds a file |
| `Scorer.DeepDirs` | analyser.py:84-90 | at most one per folder, and positive exactly when some present folder has a file deeper than 5 levels |
| `Scorer.TallyOf` | analyser.py:74-109 | the clutter figures are for Desktop and Downloads in that order; the deep-folder figure is at most one per folder and positive exactly when some present folder has files too deep |
| `Scorer.TotalPointsAppend` | analyser.py:80-112 | the points of two penalty lists add up |
| `Scorer.ClutterPoints` | analyser.py:78-79 | a folder costs at most 30 points, nothing exactly when it has at most 20 loose files, at least 10 points above that, half the loose files (rounded down) between 21 and 59, and the full 30 from 60 loose files on |
| `Scorer.ClutterPenalties` | analyser.py:75-81 | the clutter rule gives at most one penalty per judged folder, each a clutter penalty of at least 10 points |
| `Scorer.ClutterPointsMonotone` | analyser.py:79 | more loose files never cost fewer points |
| `Scorer.AddIfPoints` | analyser.py:92-112 | a rule that fires adds its points to the total, and one that does not adds none |
| `Scorer.PenaltiesOf` | analyser.py:74-112 | at most one penalty per judged folder and one per later rule, and every penalty costs points |
| `Scorer.Assess` | analyser.py:114 | the score lies in 0..100 and equals 100 minus the points whenever that is not negative |
| `Scorer.Score` | analyser.py:70-114 | the score lies in 10..100 and equals 100 minus the penalties' points, so the floor at 0 never applies |
| `Scorer.ClutterPenaltiesPoints` | analyser.py:75-80 | the clutter penalties cost the sum of each folder's points, at most 30 per folder |
| `Scorer.RulePoints` | analyser.py:70-112 | the total deduction is the clutter points plus 10 if a folder has deep files, plus 15 above 50 generic names, plus 5 above 100 old files |
| `Scorer.ClutterPenaltiesAre` | analyser.py:75-81 | a clutter penalty is listed exactly for each judged folder with more than 20 loose files, with its points and count |
| `Scorer.HierarchyRule` | analyser.py:92-94 | the hierarchy penalty is listed exactly when some folder has files deeper than 5 levels |
| `Scorer.NamingRule` | analyser.py:104-106 | the naming penalty is listed exactly when more than 50 files have generic names, and it carries that total |
| `Scorer.AgeRule` | analyser.py:110-112 | the age penalty is listed exactly when more than 100 files are old, and it carries that total |
| `Scorer.OrderedAddIf` | analyser.py:92-112 | appending a penalty of a later rule keeps the list in rule order |
| `Scorer.RuleOrder` | analyser.py:70-112 | penalties come in rule order, with at most one penalty from each rule after clutter |
| `Scorer.ClutterTotalMonotone` | analyser.py:75-80 | more loose files in each judged folder never lower the clutter points |
| `Scorer.ScoreMonotone` | analyser.py:70-114 | more clutter, more deep folders, more generic names or more old files never raise the score |
| `Scorer.AbsentFolderIgnored` | analyser.py:74-109 | an entry for a folder that was not found (None), wherever it sits and with no later entry for that folder, changes none of the figures the rules look at |
| `Scorer.AbsentEntryTotals` | analyser.py:84-109 | an entry whose folder was not found adds nothing to the deep-folder, generic-name and old-file totals, wherever it sits |
| `Scorer.LookupInsert` | analyser.py:76 | an entry inserted anywhere changes no lookup of another folder, nor of its own folder when it is None and no later entry is for that folder |
| `Scorer.LookupUnlisted` | analyser.py:76 | a folder with no entry in the map is looked up as not found |
| `Scorer.TotalsAppend` | analyser.py:84-109 | the deep-folder, generic-name and old-file totals of two parts of the map add up |
| `Scorer.OnlyClutterFoldersJudged` | analyser.py:75-77 | an entry for a folder other than Desktop and Downloads, wherever it sits, changes nothing the clutter rule looks at |
| `Scorer.CountDepthIssues` | analyser.py:84-90 | the loop counts the folders with files deeper than 5 levels |
| `Scorer.CountDefaultNames` | analyser.py:97-102 | the loop adds up the camera, screenshot and duplicate counts of the present folders |
| `Scorer.CountOld` | analyser.py:109 | the loop adds up the old-file counts of the present folders |
| `Scorer.ClutterRule` | analyser.py:74-81 | the loop lists the clutter penalties of `ClutterTally` and takes their points off the score |
| `Scorer.ApplyRule` | analyser.py:92-112 | a global rule that fires takes its points off the score and appends its penalty; one that does not changes neither |
| `Scorer.CalculateScore` | analyser.py:70-114 | the four rules, run in turn, return exactly `Score`: the score and penalties that the rule lemmas above describe |

## Left out

- Printing, the progress and summary messages, `print_report`, the `--undo` switch of cleaner.py and the closing `input()` pause of analyser.py are left out. The penalty messages are kept as a `Penalty` datatype that carries each message's figures.
- The clock is a parameter: the run's timestamp in `organize_files` and `now` in `analyze_directory`. Modification times are integers, not floats, and an unreadable one is `None`.
- The home-folder paths of the two configuration tables are a `Config` of folder names. Path equality by `os.path.abspath` is string equality. `os.path.join`, `dirname` and `basename` are the `Path(dir, name)` pair.
- A folder holds only its files. The `os.path.isfile` filter is assumed, so subfolders inside the scanned folders, and a subfolder name clashing with a file name, are not modelled.
- `os.walk` is given as a sequence of nodes, each a folder's path relative to the root, its number of subfolders and its files. The order of the walk is what the caller passes. The separator is `/`.
- A listing refused by the operating system is given as the set `unreadable`. A `shutil.move` that raises is given as the set `broken` of source paths. `os.makedirs` always succeeds.
- Reading the history file is a datatype with three cases: missing, unparseable and stored. JSON encoding and the `encoding`/`indent` options are left out. Each batch has a list of moves, so a batch without the `moves` key is not modelled.
- `str.lower` and `str.isdigit` are modelled on ASCII only.
- `Analyzer.Matches`: the `Dated` test requires a non-empty name, where `file[0]` would raise on an empty one. File names from a walk are never empty.
- The stats map of `calculate_score` is a sequence of (folder, result) entries in insertion order. Lookups take the first entry for a folder; a Python dict has one entry per key.
- `Restore.RestoreAll` states only the bound on its count. What it does to the files is stated by `Restore.RestoreOne` step by step and by `Restore.RestoreAllReversesChain` for a chain that organize recorded.
