# grafel: the graph stays right

grafel indexes a repository into a graph of entities and relationships, and re-indexes it incrementally. This
project models the machinery that keeps that graph correct, and proves what it promises:

- **the incremental merge** that splices the unchanged part of the previous graph into a freshly extracted one,
  and why the result is the graph a full rebuild gives (`Graph`, `GraphLaws`, `Merge`, `MergeRows`, `MergeLaws`,
  `Rebuild`);
- **the commit protocol** between the working tree, the persisted graph and the persisted manifest, over every
  history of edits, failed extractions, failed writes, kills and runs, and with whatever git reports (`Manifest`,
  `Filter`, `Commit`, `EndToEnd`, `Histories`);
- **the document pipeline**: stamping of identities, the class fold, the file/component fold with span donation,
  and assembly (`Records`, `Stamp`, `ClassKinds`, `Canonical`, `Edges`, `EdgeLaws`, `ClassFold`,
  `ClassFoldFields`, `ClassFoldLaws`, `FileFold`, `FileNames`, `FileFoldFields`, `FileFoldLaws`, `Folds`,
  `Assembly`, `AssemblyFields`, `AssemblyLaws`, `Pipeline`), and why what it makes of each file is what the merge
  starts from (`PerFile`);
- **concurrency in the daemon**: the index gate, rebuild pools that share it, and the progress heartbeat
  (`Gates`, `GateRuns`, `Pools`, `PoolLaws`, `Heartbeat`);
- **three smaller loops**: the linter's fixed point, the fan-out log writer and the log aggregator
  (`OutputVars`, `Fanout`, `BenchCapture`).

## How it is built

Code that changes things step by step is a method or a class here, with the same phases, branches and guards, and is
proved equal to a specification written as functions of the input; what the source promises is then proved of those
functions: what it means for each record, row or file, said of their own fields and positions (the modules named
`…Rows` and `…Fields`, and the lemmas named `…Iff`), and what it keeps. The folds and assembly work in place on an
`array` of records; the merge appends to a `Document` while a `RelPass` keeps its key set, budget and deferred
buffer; walks over Go maps take an arbitrary element each time, so a method that equals a function of the input does
so for every iteration order. Protocols are step systems: a `State`, the `Step`s enabled in it, an invariant every
step keeps, and theorems over all runs.

Modelling decisions:

- `graph.EntityID`, `graph.RelationshipID` and `ComputeID` are truncated SHA-256 sums. A sum is modelled by its
  preimage, so sums never collide but preimages may: `ComputeID` concatenates without separators, and relationship
  IDs may coincide when an endpoint is no entity ID. Where a theorem needs an ID to determine its fields it says so
  (`Identified`, `IdDeterminesTriple`, `Determines`, `Apart`).
- Extraction is an abstract function of a file's content. A file's content is a version that only grows. What git
  reports when a delta run starts is an arbitrary set of files, or nothing at all when git cannot tell.
- The kind, subtype and extension tables are parameters of the folds, which rely on one fact about them only:
  `SCOPE.Component` is not framework-typed. `ClassKinds.Vocabulary` and `FileNames.Conventions` give the real ones.
- Go's `strings.ToLower` and `regexp` are parameters; durations are unbounded integers.

## Where the code and its comments differ

1. *The manifest can lead the graph.* `Commit.Benign` and `Commit.BenignStep` say after which acts and steps it
   cannot; the guards are exact (`Commit.SoundIffBenign`, `Commit.UnsafeActLeads`, `Commit.UnsafeKillLeads`), and
   `Histories` plays one history from the initial state against each of them. They are: a read error on a file whose
   old entry still matches, or that the pre-pass has stamped (the comment at cmd/grafel/index.go:4027 says an
   unstamped file reads as new; its old entry is kept); a file hashed or read at content the classifier did not
   decide on; a pre-pass read error hidden by the worker's stamp; and a kill between the graph write and the commit
   when the extraction of a trusted file has failed, which the comment at cmd/grafel/index.go:1310 calls the safe
   direction. Without that kill a failed extraction is flagged and retried (`Commit.FailureIsRetried`): over benign
   histories the manifest leads the graph in that window and nowhere else (`Commit.ManifestNeverLeads`).
2. *Incremental equals full only if the manifest speaks for the files left out.* A file that has spent its retries is
   presented to no run until it is edited or a base name brings it in, and on the git path a file git does not report
   is trusted unread. So, where each graph written was committed, a delta run is right if and only if, when it starts,
   the manifest trusts every file it leaves out, but for files the classifier skips and the graph holds nothing of
   (`EndToEnd.RightIffCovered`, `EndToEnd.UntrustedIff`). Three benign histories after which it does not:
   a file that could not be read, has no entry, and is forgotten on a clean tree (`Histories.UnreadIsForgotten`); an
   edit committed before a manifest was first saved (`Histories.CommittedEditIsMissed`); three failed extractions
   (`Histories.SpentIsForgotten`). A run that hashes every file is right unless it leaves out a file with spent
   retries (`EndToEnd.HashPathEqualsFull`). Also, a file git reports but the hash finds unchanged is in neither of the
   two results of the filter (`Filter.PartitionIff`).
3. *Re-running the merge* never grows the graph, unconditionally (`MergeLaws.NeverGrows`), and gives the same rows
   if and only if no row it carried leaves from an ID the fresh graph re-extracted (`MergeLaws.NoGrowthRels`). The
   placeholders are another matter: they come back if and only if a row that does not leave from such an ID holds
   each (`MergeLaws.NoGrowthEntities`), and one can be lost while every row comes back (`MergeLaws.PlaceholderLost`).
4. *A folded ID can still be worn.* A record with the same kind, name and file as a folded one, but which is itself
   no fold source, keeps the folded ID; the edges it owns through an empty source stay there. The folds are exact
   if and only if the input holds no such record with such an edge (`ClassFoldLaws.ExactUnlessWorn`,
   `FileFoldLaws.ExactUnlessWorn`); `ClassFoldLaws.SentinelIsWorn` and `FileFoldLaws.PlaceholderIsWorn` are inputs
   that do.
5. *The gate's reserve never binds* (`Gates.ReserveNeverBinds`): while a foreground caller waits every slot is
   taken, so there is nothing to reserve, and a background storm takes every slot (`Gates.StormTakesEverySlot`),
   against the comment at internal/daemon/index_concurrency.go:63.
6. *Once calls time out, the gate bounds nothing.* A time-out frees the gate slot while its index goes on in the
   process. The comment at cmd/grafel/daemon.go:1880 bounds concurrent indexes by the gate's capacity; that holds of
   every run up to its first time-out (`PoolLaws.BoundedUntilTimeOut`). With time-outs, the sets of items that can be
   indexing at once are exactly the sets of items of gated pools with a token (`PoolLaws.IndexingIff`), so some run
   exceeds the capacity if and only if there are more such items than slots (`PoolLaws.GateExceededIff`).
7. *One progress line can follow a stop that gave up waiting* (`Heartbeat.LineAfterGivingUp`), against the comment
   at cmd/grafel/daemon.go:1753: exactly when the stop came between the re-check and the write
   (`Heartbeat.LateLineIff`). And after a failed CPU reading the next line charges the CPU time of several intervals
   to its own, and on an increasing CPU clock after nothing else (`Heartbeat.ChargesItsOwnIntervalIff`);
   `Heartbeat.OverchargedLine` is a run that does.
8. *A log failure can go unannounced.* It is heard of if and only if some sink that has never failed a write accepts
   the very attempt that carries the announcement (`Fanout.AnnouncedIff`). Nobody hears of it when the write was
   delivered only by sinks that failed before and recovered (`Fanout.SwallowedNotice`), or when the only healthy sink
   fails on the announcement, an error the code discards (`Fanout.LostNotice`); and it is never announced again
   (`Fanout.NeverAgain`).
9. *A genuine triple of log lines counts twice*, not once (`BenchCapture.TripleCountsTwice`;
   cmd/grafel/bench_capture.go:182).

## Model

| member | source | states |
|---|---|---|
| Merge.MergeIncrementalPrevSource | cmd/grafel/index.go:6656-6904 | the merged document is the fresh one, then the first previous entity of each new ID in an unchanged file, then the referenced synthetics; of the surviving previous rows it carries exactly those that neither duplicate a fresh row nor fall to its supersession budget; no hierarchy self-loop remains; the counters count these |
| Merge.Document.CarryEntities | cmd/grafel/index.go:6664-6695 | the first pass: which entities are carried, which IDs are live, which belonged to changed files, which synthetics are held back |
| Merge.Document.AttachSynthetics | cmd/grafel/index.go:6876-6883 | the third pass attaches the first synthetic of each ID that is referenced and not live |
| Merge.RelPass.Visit | cmd/grafel/index.go:6811-6850 | one previous row is dropped as stale, spends budget as a duplicate, is deferred, or is carried, and the pass stays consistent with the rows streamed so far |
| Merge.RelPass.Settle | cmd/grafel/index.go:6855-6870 | after the settlement exactly the rows of the specification have been carried, whatever order the families were first met in |
| Merge.RelPass.CarryTail | cmd/grafel/index.go:6861-6869 | of one colliding family the rows after the superseded prefix are carried, each key once |
| MergeLaws.NoNewDangling | cmd/grafel/index.go:6810-6883 | every endpoint of a surviving previous row that was an entity is an entity of the result, also of rows that were deduplicated or superseded |
| MergeRows.SameKeyIff | cmd/grafel/index.go:6724-6762 | two rows are taken for one if and only if endpoints, kind, identity and every property agree; an absent identity is the derived one |
| MergeRows.CarriedIff | cmd/grafel/index.go:6764-6870 | the relationship pass without its loops: a row is carried, up to confidence, if and only if it is alike to a surviving previous row that no fresh row is alike to, and the fresh rows of its identity are used up by the surviving rows that repeat them and the unlike ones before it |
| MergeRows.UncontestedAreCarried | cmd/grafel/index.go:6697-6755 | every surviving row whose identity no fresh row has is carried, whatever its properties |
| MergeRows.SupersessionIsPerRow | cmd/grafel/index.go:6764-6870 | the previous rows of one identity lost to supersession number at most its fresh rows less the surviving rows that repeat them, and exactly that many, while there are rows to take, if no two of them are alike |
| MergeRows.DuplicatesProtectSiblings | cmd/grafel/index.go:6794-6870 | if the surviving rows that repeat fresh rows of an identity are as many as these, wherever they are, no differing row of that identity is lost |
| MergeRows.EnoughRepeats | cmd/grafel/index.go:6794-6804 | they are as many if each fresh row has its own repetition |
| MergeRows.EntitiesOut | cmd/grafel/index.go:6664-6883 | the entities of the result, in order: the fresh ones, the first previous one of each ID in an unchanged file that is not fresh, and the first placeholder of each ID that a surviving row points at and nothing live has |
| GraphLaws.SelfLoopIff | cmd/grafel/index.go:6885-6899 | the rows finally dropped join an entity to itself by IMPLEMENTS, EXTENDS or INHERITS, in any case |
| GraphLaws.LoopsGo | cmd/grafel/index.go:6885-6899 | every other row is kept as often as it was there |
| MergeLaws.NoGrowthRels | cmd/grafel/index.go:6697-6883 | merging the same fresh graph again gives the same rows again, as a multiset, if and only if no carried row leaves from a re-extracted ID |
| MergeLaws.NoGrowthEntities | cmd/grafel/index.go:6669-6883 | and the same entities again, in the same order, if and only if every placeholder attached is an endpoint of a row of the first result that does not leave from a re-extracted ID |
| MergeLaws.OwnersKeptHold | cmd/grafel/index.go:6810-6883 | that is so if no surviving row leaves from a re-extracted ID and there are no hierarchy self-loops |
| MergeLaws.PlaceholderLost | cmd/grafel/index.go:6811-6883 | two merges after which the rows are the same and a placeholder is gone |
| MergeLaws.NeverGrows | cmd/grafel/index.go:6713-6718 | a second merge never adds a row, with no condition |
| MergeLaws.RowLost | cmd/grafel/index.go:6812-6816 | a carried row that leaves from a re-extracted ID is in the first result and gone from the second |
| Rebuild.IncrementalIsRebuild | cmd/grafel/index.go:6656-6904 | re-extracting the changed files and merging turns the full graph of the old contents into the full graph of the new ones; all it can miss are edges into destroyed entities |
| Rebuild.WholeStreamCarried | cmd/grafel/index.go:6839-6849 | with per-file extraction no fresh row competes with a row of an unchanged file, so the whole stream is carried |
| Rebuild.StreamRows | cmd/grafel/index.go:6812-6821 | the rows of changed files leave the stream, and of the others exactly the rows into destroyed entities |
| Rebuild.FullRebuild | cmd/grafel/index.go:2265-2269 | a full rebuild with external synthesis represents the files without exception |
| Rebuild.RepresentsIsUnique | cmd/grafel/index.go:6656-6904 | two graphs of the same contents agree on source entities, and on rows up to destroyed targets |
| Manifest.WalkStamps.RecordWalkStamp | cmd/grafel/index.go:1215-1224 | after any sequence of recordings, the stamp of each file is the first one recorded for it |
| Manifest.AnyInterleaving | cmd/grafel/index.go:1201-1214 | the stamp of a file depends on its own recordings alone, however the workers interleave |
| Manifest.StampIsEarliest | cmd/grafel/index.go:1204-1214 | if later recordings are of later content, the stamp is of the earliest content recorded, so it cannot lead |
| Manifest.ManifestFile.ApplyStampsAndFailures | internal/indexer/diff/diff.go:397-424 | the committed manifest overlays the stamps, keeps walked files only, and counts consecutive failures of the same content; the files whose failures have just passed the limit are reported |
| Manifest.ReportedIff | internal/indexer/diff/diff.go:397-424 | a failed file is reported as given up exactly at the third failure in a row of the same content |
| Manifest.ManifestFile.ApplyStamps | internal/indexer/diff/diff.go:355-363 | the keys are the old and stamped ones still in the walk, a stamp beating an old entry |
| Filter.FilterWithGit | internal/indexer/diff/diff.go:577-680 | the files presented and the files reported unchanged, in the order of the walk, are the specified functions of the manifest, the disk and what git answers |
| Filter.FilterByHash | internal/indexer/diff/diff.go:229-266 | and so are those of the hash path, which checks every file |
| Filter.PresentedIff | internal/indexer/diff/diff.go:577-680 | a file is presented if and only if it is looked at and is gone, new, due for a retry or of other content, or it shares its base name with such a file of the walk and was not itself hashed on git's word |
| Filter.UnchangedIff | internal/indexer/diff/diff.go:577-680 | and reported unchanged if and only if it shares its base name with no such file and is not looked at, or every file is and it is unchanged |
| Filter.SelectInOrder | internal/indexer/diff/diff.go:256-266 | both lists keep the order of the walk |
| Filter.RetryIsPresented | internal/indexer/diff/diff.go:616-634 | a retry that is due is presented whatever git reports |
| Filter.PartitionIff | internal/indexer/diff/diff.go:636-679 | the two results make up the walk if and only if git reports no file that the hash finds unchanged |
| Filter.SilentIff | internal/indexer/diff/diff.go:584-614 | git at its best is silent on a file if and only if HEAD, and the manifest's commit if that is another one, have the content on disk |
| Commit.ActKeepsDates | cmd/grafel/index.go:3989-4045 | no act of a run records a read newer than the disk, or a stat newer than the read it pairs with |
| Commit.SoundIffBenign | cmd/grafel/index.go:3856-3882 | what one worker built is right wherever the manifest, now or after the commit, says so, if and only if the act was benign; also when the file was read twice with a write in between |
| Commit.StampsAreFirst | cmd/grafel/index.go:1201-1224 | the stamps a run commits are the first recordings of its workers, whatever is edited meanwhile |
| Commit.DatedInvStep | cmd/grafel/index.go:1045-1050 | every step at all, benign or not, keeps the persisted graph a full graph of what was extracted, and the order of stats, reads and entries |
| Commit.InvStep | cmd/grafel/index.go:1045-1050 | every benign step, including an edit, a failed extraction, a failed graph write and a kill, keeps the invariant that ties manifest, stamps, graph and disk |
| Commit.ManifestNeverLeads | cmd/grafel/index.go:1045-1049 | in every state of every benign history, the manifest says of a file that its present content is indexed when it is not if and only if the commit that will flag its failed extraction is still to come |
| Commit.FailureIsRetried | internal/indexer/diff/diff.go:397-444 | the commit flags a failed file, and until it has failed too often the next delta run re-extracts it, whatever git reports |
| Commit.UnsafeActLeads | cmd/grafel/index.go:4014-4045 | every act that is not benign makes the manifest lead the graph if the run writes its graph with the file untouched |
| Commit.UnsafeKillLeads | cmd/grafel/index.go:1310-1313 | and so does a kill in that window |
| Histories.UnreadWhileTrusted | cmd/grafel/index.go:4025-4038 | a history from the initial state: a read error on a file whose entry still matches |
| Histories.UnreadAfterPrePass | cmd/grafel/index.go:3872-3882 | a read error on a file the pre-pass has stamped |
| Histories.PrePassErrorHidden | cmd/grafel/index.go:3872-3882 | a pre-pass read error that the worker's stamp hides |
| Histories.HashedAtOtherContent | cmd/grafel/index.go:4004-4016 | a skipped file hashed after an edit the classifier would not skip |
| Histories.ReadAtOtherContent | cmd/grafel/index.go:4025-4045 | a file read after an edit the classifier would skip |
| Histories.KilledInWindow | cmd/grafel/index.go:1045-1049 | a failed extraction of a trusted file, and a kill before the commit |
| EndToEnd.RightIffCurrent | cmd/grafel/index.go:1677-1707 | after any history whatever, a run that completes on a quiet tree builds the graph from the right content if and only if the graph was up to date on the files it leaves out |
| EndToEnd.IncrementalEqualsFull | cmd/grafel/index.go:1643-1765 | after any benign history, if the manifest trusts the files left out, the graph is the one a full rebuild of the disk gives, up to rows into destroyed entities and placeholders only those reach |
| EndToEnd.RightIffCovered | cmd/grafel/index.go:1677-1707 | after any benign history in which each graph written was committed, the run builds the graph from the right content if and only if that condition holds when it starts |
| EndToEnd.UntrustedIff | internal/indexer/diff/diff.go:636-680 | the manifest does not speak for a file left out if and only if its retries are spent, or git was silent and it has no entry or another content |
| EndToEnd.HashPathEqualsFull | internal/indexer/diff/diff.go:229-266 | after any benign history, a run that hashes every file gives the graph of a full rebuild, up to the same rows and placeholders, if no file it leaves out has spent its retries: with no condition on git or on the contents the manifest claims |
| EndToEnd.FullRunIsExact | cmd/grafel/index.go:1677-1764 | after any history, benign or not, a full run leaves exactly the full rebuild |
| EndToEnd.UntouchedPieceStays | cmd/grafel/index.go:1703-1707 | what the graph holds of a file left out of a run does not change during it |
| Histories.UnreadIsForgotten | cmd/grafel/index.go:4025-4038 | a benign history after which a file has no entry; at the indexed commit a clean git tree reports nothing, and a delta run starts, completes and leaves the file out, so that the graph lacks it |
| Histories.CommittedEditIsMissed | internal/indexer/diff/diff.go:604-614 | a benign history after which there is no manifest and a file has been edited and the edit committed; at any HEAD a clean git tree reports nothing, and a delta run starts, completes and leaves the graph with the old content |
| Histories.SpentIsForgotten | internal/indexer/diff/diff.go:442-444 | a benign history of three failed extractions after which even a run on the hash path starts, completes and leaves the file out |
| Records.EntityIDInjective | cmd/grafel/index.go:4803-4806 | the NUL-separated identity determines kind, name and file |
| Stamp.Batch.StampEntityIDs | cmd/grafel/index.go:4776-4883 | the fast and the slow path stamp the same records with the same IDs, and each twin_of ends where the specification says |
| Stamp.RewrittenIffAgreed | cmd/grafel/index.go:4843-4882 | a twin_of is rewritten if and only if all named records sharing its pre-stamp ID agree on one final ID, and then to that one |
| Stamp.StampedFields | cmd/grafel/index.go:4776-4883 | stamping changes the ID of named records and their twin_of, and nothing else |
| GraphLaws.EveryFieldCounts | cmd/grafel/index.go:4799-4810 | the pre-stamp identity depends on each of its four fields |
| Stamp.UnsharedStays | cmd/grafel/index.go:4879-4881 | a twin_of that no named record's pre-stamp ID matches stays |
| Stamp.OrderIndependent | cmd/grafel/index.go:4799-4832 | the decision is the same for every order of the records |
| Stamp.NulFreeIsApart | cmd/grafel/index.go:4820-4831 | records with NUL-free fields never confuse pre-stamp and final IDs |
| Canonical.BestCand | cmd/grafel/index.go:5110-5136 | returns the scan's choice |
| Canonical.BetterIsTransitive | cmd/grafel/index.go:5103-5109 | the precedence is transitive |
| Canonical.BetterIsTotal | cmd/grafel/index.go:5103-5109 | and total up to equal priority, rank, line and ID |
| Canonical.BestInFields | cmd/grafel/index.go:5104-5134 | the chosen candidate has the greatest priority, then the greatest rank, then the smallest real line, then the smallest ID |
| Canonical.BestIsFirst | cmd/grafel/index.go:5110-5134 | and of those that agree on all of that it is the first |
| ClassFoldFields.ModelLeads | cmd/grafel/index.go:5104-5134 | with the program's tables a Model is chosen over a Controller or a Schema of its class, and a Schema over a Task |
| ClassKinds.BeforeIff | cmd/grafel/index.go:5127-5131 | IDs are compared where they first differ |
| Canonical.CanonicalChoice | cmd/grafel/index.go:5110-5136 | every permutation of the candidates gives a choice of the same priority, rank, line and ID |
| ClassFold.SiblingFold | cmd/grafel/index.go:5148-5183 | in whatever order the map of symbols is walked, the records become the same function of the input, the losers are marked, and the renaming remembers each |
| ClassFold.FoldSource | cmd/grafel/index.go:5227-5315 | one fold source is folded, deferred, stripped, kept as anchor or left, as decided by the input alone |
| ClassFold.FoldClassHierarchyShadows | cmd/grafel/index.go:5050-5366 | records and standalone edges become the specified function of the input: which records are dropped, what each survivor absorbs and in which order, which lose their provenance, where every edge goes |
| ClassFoldFields.GoesIff | cmd/grafel/index.go:5146-5310 | a record goes if and only if a better framework record of its class is there, or it is a mere class record beside one with another ID and no facet needs it, or it is inferred, its class has no framework record, and a real record has its ID |
| ClassFoldFields.ChosenTakes | cmd/grafel/index.go:5146-5315 | the chosen record changes in properties and edges only: under each key its own value, else that of the first record that folds into it and may give one, weaker framework records before class records |
| ClassFoldFields.OthersStay | cmd/grafel/index.go:5227-5272 | every other record that stays is as it was, except that an inferred one with a real line, alone of its class, loses its provenance |
| ClassFoldFields.RenamedIff | cmd/grafel/index.go:5158-5163 | exactly the IDs of records that fold are sent to another, and each to its chosen record's |
| ClassFoldFields.FoldLeaves | cmd/grafel/index.go:5317-5366 | what is left is the records that do not go, in order |
| ClassFold.RhoFlat | cmd/grafel/index.go:5321-5327 | no record is renamed to a renamed or empty ID |
| ClassFoldLaws.EdgesConserved | cmd/grafel/index.go:5045-5048 | embedded plus standalone edges, bound to their owners and renamed, are the same multiset before and after |
| ClassFoldLaws.ExactUnlessWorn | cmd/grafel/index.go:5320-5354 | read as assembly reads them, the output's edges are the renamed input edges if and only if no input record that stays has a folded ID and owns an edge with an empty source |
| ClassFoldLaws.SentinelIsWorn | cmd/grafel/index.go:5195-5201 | with the program's tables, three stamped records for which they are not: a model, its generic class, and the sentinel of that class |
| ClassFoldLaws.NoRenamedEndpoint | cmd/grafel/index.go:5321-5354 | no edge of the output names a renamed ID |
| ClassFoldLaws.EveryIdResolves | cmd/grafel/index.go:5232-5250 | every ID that named an input record names, once renamed, an output record |
| ClassFoldLaws.SurvivorInherits | cmd/grafel/index.go:5292-5313 | the survivor of a dropped record remains, keeps its own values, answers for every property the dropped one brought, and has no property from anywhere else |
| ClassFoldLaws.OneFrameworkRecord | cmd/grafel/index.go:5138-5147 | of one file and name at most one remaining record is framework-typed and not a facet |
| ClassFoldLaws.NoGenericBeside | cmd/grafel/index.go:5262-5280 | a generic class record remains beside a framework-typed one only as the anchor of a facet, an inferred one only as that or under the survivor's own ID |
| ClassFoldLaws.AnchorsRemain | cmd/grafel/index.go:5185-5210 | a generic class ID that a facet names as anchor is not renamed and still names a record |
| FileNames.PathParts | cmd/grafel/index.go:5388-5393 | for every path: the base name's stem runs from the last slash to the last dot after it, the extension is the rest; trailing slashes and the empty path included |
| FileFold.FoldFileComponentDuplicates | cmd/grafel/index.go:5507-5777 | records and standalone edges become the specified function of the input, for every iteration order of the map of files |
| FileFoldFields.FileRecordTakes | cmd/grafel/index.go:5587-5726 | a file record keeps what names it; each property, its qualified name and its signature are its own, else those of the first folded declaration that has them under a copied key, and no others; so is its span, else it is the best donor's |
| FileFoldFields.FoldLeaves | cmd/grafel/index.go:5526-5583 | exactly the class-like components go that have the name of their file, are what it exports, and have another ID than the file's last record; the rest stays in order |
| FileFoldFields.RenamedIff | cmd/grafel/index.go:5581-5583 | exactly their IDs are sent to another, the file record's |
| FileFoldFields.OthersStay | cmd/grafel/index.go:5526-5777 | every other record that stays is as it was |
| FileNames.DeclarationIff | cmd/grafel/index.go:5388-5480 | with the program's conventions a file is the declaration of a class if it has a component format's extension, or a module's and that class as default export; its stem is the base name without extension |
| FileNames.ConventionsOfProps | cmd/grafel/index.go:5531-5594 | it copies every property but those that describe the declaration itself, and reads the default export from its own |
| FileFold.FoldDeclaration | cmd/grafel/index.go:5545-5631 | one record is folded if and only if its file is its declaration, judged by the default export the file had before any fold |
| FileFold.DonateSpans | cmd/grafel/index.go:5675-5726 | in whatever order the files are visited, each positionless file record takes the span of the same donor |
| FileFoldLaws.EdgesConserved | cmd/grafel/index.go:5623-5630 | embedded plus standalone edges, bound and renamed, are the same multiset before and after |
| FileFoldLaws.NoFoldedEndpoint | cmd/grafel/index.go:5732-5765 | no edge of the output names a folded declaration |
| FileFoldLaws.ExactUnlessWorn | cmd/grafel/index.go:5732-5765 | exact, as assembly reads edges, if and only if no input record that stays has a folded ID and owns an edge with an empty source |
| FileFoldLaws.PlaceholderIsWorn | cmd/grafel/index.go:5545-5631 | with the program's conventions, three stamped records for which it is not: any file of a component format, the component it is named after, and a placeholder of that component |
| FileFoldLaws.EveryIdResolves | cmd/grafel/index.go:5732-5776 | every ID that named an input record names, once renamed, an output record |
| FileFoldLaws.DonorIsBest | cmd/grafel/index.go:5673-5718 | if there is a donor the scan finds one that none is preferred to: smallest start line, then largest end line, then smallest ID |
| FileFoldLaws.LeftWithoutLine | cmd/grafel/index.go:5632-5656 | a file record is left at line 0 if and only if neither it, nor a declaration folded into it, nor any donor has a line |
| FileFoldLaws.BorrowedSpan | cmd/grafel/index.go:5719-5725 | a borrowed span starts where the first donor starts and reaches as far as any donor starting there |
| Folds.ClassFoldKeepsStamps | cmd/grafel/index.go:5504-5506 | what the class fold leaves meets the file fold's demands |
| Folds.BothFoldsResolve | cmd/grafel/index.go:6231-6243 | an ID that named an input record names a record after both folds, once renamed twice |
| Assembly.Assemble | cmd/grafel/index.go:6281-6529 | entities and relationships are the specified functions of the records and streams, and every record is drained meanwhile |
| Assembly.GapFill | cmd/grafel/index.go:6338-6412 | one duplicate fills exactly the fields the survivor lacks, after displacing a sentinel |
| Assembly.NodeSnoc | cmd/grafel/index.go:6331-6412 | the closed form of an entity over all its duplicates is kept by one gap-filling step |
| AssemblyFields.DupsInOrder | cmd/grafel/index.go:6281-6321 | the records of one ID are met in their order, and all of them |
| AssemblyFields.NodeInFields | cmd/grafel/index.go:6281-6412 | of these, an entity has the first record's kind, name and file, and the first line, signature and language there is; the first real subtype, which brings its qualified name along if a sentinel came before it, else the first name |
| AssemblyFields.PropsInFields | cmd/grafel/index.go:6296-6412 | properties are the first value under each key; the module is the repository's only one for a sourced record, else the first record's, else derived from its file |
| AssemblyFields.RowsInOrder | cmd/grafel/index.go:6425-6445 | there is one relationship for the first edge of each ID, in order, with all that edge says |
| AssemblyFields.EmbeddedOne | cmd/grafel/index.go:6425-6445 | the edges of a record, an empty source standing for its entity |
| AssemblyFields.StreamsInOrder | cmd/grafel/index.go:6425-6521 | records' edges are met first, then the standalone ones, then the two late streams, which lose their confidence |
| AssemblyLaws.ExactlyTheIds | cmd/grafel/index.go:6281-6321 | entity IDs are distinct and exactly the records' |
| AssemblyLaws.FirstOccurrenceOrder | cmd/grafel/index.go:6281-6320 | entities come in order of first occurrence |
| AssemblyLaws.FirstTextMeans | cmd/grafel/index.go:6379-6384 | a text field is the first non-empty value among the duplicates, empty only if all are |
| AssemblyLaws.FirstLineMeans | cmd/grafel/index.go:6385-6390 | and so are the lines |
| AssemblyLaws.RealSubtypeWins | cmd/grafel/index.go:6367-6378 | a real subtype always displaces the sentinel's |
| AssemblyLaws.NameNeverLost | cmd/grafel/index.go:6357-6375 | a qualified name that any duplicate has is never lost |
| AssemblyLaws.TagsMeans | cmd/grafel/index.go:6391-6402 | the tags are the first record's, then each other tag once |
| AssemblyLaws.FirstPropertyWins | cmd/grafel/index.go:6403-6412 | properties are the union, the first record's value winning key by key |
| AssemblyLaws.RowsAreFirst | cmd/grafel/index.go:6425-6445 | relationship IDs are distinct, each row is the first edge of its ID, and no ID is missing |
| AssemblyLaws.EachTripleOnce | cmd/grafel/index.go:6425-6529 | each triple that is no hierarchy self-loop has exactly one relationship, and no other triple has any |
| AssemblyLaws.AssemblyReadsThePlainEdges | cmd/grafel/index.go:6425-6521 | the edges assembly reads are the ones the folds conserve and those of the two late streams |
| Pipeline.StampingIdentifies | cmd/grafel/index.go:4776-4883 | stamping records with NUL-free fields leaves what the folds and assembly ask for |
| Pipeline.ClassFoldKeepsIds | cmd/grafel/index.go:5050-5366 | the class fold keeps every record under the ID assembly gives it |
| Pipeline.FileFoldKeepsIds | cmd/grafel/index.go:5507-5777 | and so does the file fold |
| Pipeline.FoldsSendEdges | cmd/grafel/index.go:6218-6243 | if no record that stays wears a folded ID, the edges after both folds are, as a multiset, the input's, each bound to its record and renamed twice |
| Pipeline.EveryEdgeOnce | cmd/grafel/index.go:6218-6529 | from records to relationships, if no record that stays wears a folded ID and relationship IDs determine their triples: each input edge, bound and renamed by both folds, and each late one, has exactly one relationship unless it is a hierarchy self-loop, and there is no other |
| PerFile.EachEdgeHasItsRow | cmd/grafel/index.go:6218-6529 | and so it is, with no such condition on relationship IDs, if every edge leaves from a record and fields hold no NUL |
| PerFile.RelationshipIDInjective | cmd/grafel/index.go:6425-6445 | then a relationship ID determines source, target and kind |
| PerFile.DocumentAssembles | cmd/grafel/index.go:6281-6529 | if every edge leaves from a record and fields are NUL-free, assembling the records of many files gives exactly the entities and relationships that assembling each file gives |
| PerFile.FileIsWellExtracted | cmd/grafel/index.go:6281-6529 | under the same condition the document assembled from one file's records and edges is what the merge asks of an extracted file: its entities are the file's, its rows leave from them, and IDs give back file and source |
| PerFile.DocumentIsRooted | cmd/grafel/index.go:6218-6529 | if every edge leaves from a record before the folds, every edge of the document leaves from a record after them, worn IDs or not |
| Gates.IndexGate.Enter | internal/daemon/index_concurrency.go:132-151 | a caller is admitted or queued as the specification says, and nobody waits while a slot is free |
| Gates.IndexGate.WakeLocked | internal/daemon/index_concurrency.go:211-225 | the waiters are woken in order, each with a slot charged to it |
| Gates.IndexGate.Leave | internal/daemon/index_concurrency.go:194-205 | a release keeps the gate sound |
| Gates.IndexGate.Cancel | internal/daemon/index_concurrency.go:157-173 | a cancelled caller's place is removed from its queue and nothing else is; if it was signalled its slot is handed on |
| Gates.ReleaseWakesTheHead | internal/daemon/index_concurrency.go:191-225 | a released slot goes to the longest waiting foreground caller, else the longest waiting background one, else stays free |
| Gates.ReserveNeverBinds | internal/daemon/index_concurrency.go:178-189 | in every sound state foreground and background callers are admitted alike |
| Gates.StormTakesEverySlot | internal/daemon/index_concurrency.go:62-66 | background callers alone can take every slot |
| GateRuns.WithdrawRemoves | internal/daemon/index_concurrency.go:157-166 | a queued caller that gives up leaves its queue with exactly its own place removed; the other queue and the counts are unchanged |
| GateRuns.ServedInTurn | internal/daemon/index_concurrency.go:132-241 | in every run of callers that ask, finish and give up: of each class those signalled are the first of those that came and stayed, in order, and the rest wait in order |
| GateRuns.NeverSignalled | internal/daemon/index_concurrency.go:157-173 | a caller that gave up while queued is signalled by no later release |
| Gates.SignalledCancelHandsOn | internal/daemon/index_concurrency.go:167-172 | a caller that gives up after it was signalled wakes the next one, and as many slots stay taken |
| Pools.InvStep | cmd/grafel/daemon.go:1884-1915 | every step of every worker of every pool keeps the books: tokens, charges, queues and results match the workers' phases |
| PoolLaws.InvRun | cmd/grafel/daemon.go:1884-1915 | and so does every interleaving |
| PoolLaws.Bounded | cmd/grafel/daemon.go:1879-1883 | at most conc work calls of a pool and at most the gate's capacity of all gated pools run at once |
| PoolLaws.NoDeadlock | cmd/grafel/daemon.go:1887-1913 | while a worker is not done some worker can move, if every pool with work has a token |
| PoolLaws.NoTokensNoWork | cmd/grafel/daemon.go:1886-1896 | a pool made with no tokens never starts any of its work, in any run |
| PoolLaws.RunsAreFinite | cmd/grafel/daemon.go:1884-1915 | no run is longer than eight steps a worker, the ends of timed-out indexes included |
| PoolLaws.AllReturned | cmd/grafel/daemon.go:1891-1913 | when all workers are done every token and gate slot is back, nobody waits, and every item has a result |
| PoolLaws.ResultIsTheOutcome | cmd/grafel/daemon.go:1885-1914 | every item is worked on at most once and its result is the outcome of that call, a time-out included |
| PoolLaws.BoundedUntilTimeOut | cmd/grafel/daemon.go:1879-1883 | in every run in which no call times out, the items being indexed under the gate number at most its capacity |
| PoolLaws.IndexingIff | cmd/grafel/daemon.go:2317-2363 | for every set of pools and every capacity, a set of items can be indexing at once under the gate if and only if each is an item of a gated pool that has a token |
| PoolLaws.GateExceededIff | cmd/grafel/daemon.go:2341-2362 | some run has more indexes at once than the gate's capacity if and only if the gated pools with a token have more items than that |
| Heartbeat.NoLineAfterBarrier | cmd/grafel/daemon.go:1734-1742 | no line follows a stop that saw the goroutine exit |
| Heartbeat.NoLineOnceSeenGone | cmd/grafel/daemon.go:1760-1768 | in every run from the start, once a stop sees the goroutine gone no step adds a line |
| Heartbeat.StopAgain | cmd/grafel/daemon.go:1760-1768 | once stopped, a run is the same without any further stops, however they interleave and whether they see the exit or give up |
| Heartbeat.AtMostOneLate | cmd/grafel/daemon.go:1706-1712 | once stopped or cancelled, at most one line follows, and only if it was about to be written |
| Heartbeat.LateLineIff | cmd/grafel/daemon.go:1753-1758 | a line can still follow a stop signal if and only if the signal came between the re-check and the write |
| Heartbeat.LineAfterGivingUp | cmd/grafel/daemon.go:1763-1769 | a run in which a line follows a stop that hit the ceiling |
| Heartbeat.ExitsSoon | cmd/grafel/daemon.go:1684-1732 | once stopped, the goroutine takes at most four more steps of its own |
| Heartbeat.NeverStuck | cmd/grafel/daemon.go:1684-1690 | and until it is gone it can take one |
| Heartbeat.EveryTickIsALine | cmd/grafel/daemon.go:1690-1730 | the re-check drops no legitimate line: while no stop signal is set every tick taken becomes a line |
| Heartbeat.LinesTile | cmd/grafel/daemon.go:1713-1730 | the intervals of the lines tile the time from the start to the last line |
| Heartbeat.LinesCharge | cmd/grafel/daemon.go:1721-1729 | in every run whose readings come from one CPU clock, each line that reports CPU time reports what the clock moved on since the last reading that succeeded |
| Heartbeat.ChargesItsOwnIntervalIff | cmd/grafel/daemon.go:1721-1729 | what such a line reports is the CPU time of its own interval if and only if the reading before it succeeded, on a clock that increases between the two |
| Heartbeat.OverchargedLine | cmd/grafel/daemon.go:1721-1729 | for any increasing clock, a run in which a reading fails and the next line reports more than its interval used |
| Heartbeat.ReportsIff | cmd/grafel/daemon.go:1721-1727 | in every run a line reports CPU time if and only if its reading and one before it succeeded, its interval is not empty and the clock did not go back |
| Heartbeat.FirstTickWaits | cmd/grafel/daemon.go:1684-1700 | a tick that finds another waiting is dropped |
| OutputVars.CollectOutputVars | cmd/lint-localematch/main.go:227-261 | ends, and returns the least set closed under the file's assignments: a name is in it if and only if a chain of assignments leads to it from a capture call |
| OutputVars.RhsIsOutput | cmd/lint-localematch/main.go:266-285 | a capture call, or any call with a known name as direct argument |
| OutputVars.SeedIff | cmd/lint-localematch/main.go:227-275 | a chain starts at a name to which a capture call is assigned, the only name on the left or the one in the same place, never the blank one |
| OutputVars.FlowsIff | cmd/lint-localematch/main.go:240-285 | and goes from any direct argument of a call, whichever it is, to the name the call is assigned to |
| OutputVars.OrderDoesNotMatter | cmd/lint-localematch/main.go:229-230 | neither the order nor the repetition of statements matters |
| OutputVars.ArgDerivesFromOutput | cmd/lint-localematch/main.go:334-355 | true if and only if following arguments and parentheses reaches an output name or an error message |
| Fanout.FanoutWriter.Write | cmd/grafel/logfanout.go:79-107 | every sink is attempted; the write succeeds if and only if some sink accepted it, else the first error is returned; new failures are announced |
| Fanout.FirstErrorIs | cmd/grafel/logfanout.go:86-106 | the error returned is that of the first sink that failed |
| Fanout.FailuresAre | cmd/grafel/logfanout.go:88-101 | the failures announced are those of the sinks that fail for the first time, in sink order |
| Fanout.FanoutWriter.NoticeLocked | cmd/grafel/logfanout.go:112-127 | each announcement goes to exactly the sinks not reported |
| Fanout.HealthySinkHearsAll | cmd/grafel/logfanout.go:63-72 | over any run a sink that never fails receives every payload in order, interleaved only with the announcement of every first failure, in order |
| Fanout.OneFailurePerSink | cmd/grafel/logfanout.go:44-47 | there is one first failure for every sink that failed in the run |
| Fanout.AnnouncedIff | cmd/grafel/logfanout.go:102-127 | somebody receives the announcement of a first failure if and only if some sink that has never failed a write accepts the attempt that carries it |
| Fanout.NoticesReceived | cmd/grafel/logfanout.go:118-125 | what announcements each sink has received after a write: those it had, and those among the new ones it accepted |
| Fanout.AnnouncedIfDelivered | cmd/grafel/logfanout.go:102-105 | with no sink reported before, a delivered write leaves it unheard of if and only if every sink that took the payload fails on the announcement |
| Fanout.SwallowedNotice | cmd/grafel/logfanout.go:118-125 | a recovered sink delivers the write in which another fails first, and nobody hears of it |
| Fanout.LostNotice | cmd/grafel/logfanout.go:125 | a healthy sink delivers the write and fails on the announcement, and nobody hears of it |
| Fanout.NeverAgain | cmd/grafel/logfanout.go:96-99 | a reported sink never has a first failure again |
| BenchCapture.ParseBenchCapture | cmd/grafel/bench_capture.go:166-250 | totals, per-tool statistics and percentiles are those of the calls in the collapsed lines; no percentiles without calls |
| BenchCapture.DoublingUndone | cmd/grafel/bench_capture.go:158-159 | a log of non-empty lines written twice each collapses to the lines once each, equal neighbours included |
| BenchCapture.RunCountsHalf | cmd/grafel/bench_capture.go:181-185 | a run of n equal lines counts ceil(n / 2) times |
| BenchCapture.TripleCountsTwice | cmd/grafel/bench_capture.go:182 | a genuine triple counts twice |
| BenchCapture.CountedInFullIff | cmd/grafel/bench_capture.go:179-185 | a log written once is counted in full if and only if no two neighbouring lines are equal |
| BenchCapture.PerToolAddsUp | cmd/grafel/bench_capture.go:197-217 | per-tool counts and sums add up to the totals |
| BenchCapture.StatsOfOne | cmd/grafel/bench_capture.go:197-219 | what one call counts; a line of an older log has no payload |
| BenchCapture.StatsOfBoth | cmd/grafel/bench_capture.go:197-219 | statistics add up over any split of the calls |
| BenchCapture.OfCounts | cmd/grafel/bench_capture.go:200-217 | a tool's statistics are of all its calls and no others |
| BenchCapture.RankCovers | cmd/grafel/bench_capture.go:238-245 | the rank of p99 is the least that covers 99 values of every 100; the clamp never acts |
| BenchCapture.P50IsMiddle | cmd/grafel/bench_capture.go:229-236 | p50 is the mean of the lower and the upper middle value, for odd and even counts |
| BenchCapture.PercentilesInOrder | cmd/grafel/bench_capture.go:226-247 | minimum <= p50 <= p99 <= maximum |

## Left out

- Parsing, language extractors, framework passes, the resolver, external synthesis and the passes after the merge: extraction is one abstract function of a file, synthesis one predicate.
- Merge.MergeIncrementalPrevSource: which of several equal-keyed rows supplies the confidence is not stated, nor the order of the carried rows; both follow the stream and the deferral order.
- The nil guards of the merge, `filepath.ToSlash` (the identity off Windows) and the string form of the dedupe key, which is a structured key here.
- Files that leave or join the walk: the set of walked files is fixed. A file put back to earlier content counts as new content. The filter reads manifest and disk at one moment.
- EndToEnd.RightIffCovered: after a kill between graph write and commit the condition is enough but not needed, since the graph may be newer than the manifest; `EndToEnd.RightIffCurrent` covers those histories.
- EndToEnd.IncrementalEqualsFull: a failed stat, subprocess extraction and a manifest that fails to save are not steps; a run that saves no manifest is the kill after the graph write.
- Rebuild.IncrementalIsRebuild: what one file contributes depends on that file alone. Assembly is shown to be so (`PerFile`), but a fold in one file can rename an edge that another file has into it, and a delta run folds the changed files only.
- Commit.Do: a file whose extraction failed contributes nothing. In the code it still joins the classified files (cmd/grafel/index.go:4270), and later passes may add to it.
- Logging and the counters of the folds.
- Record metadata and confidence in assembly: filled like properties, and not at all.
- ClassFold.FoldClassHierarchyShadows: named records are required to be stamped, as the pipeline guarantees; FileFold.FoldFileComponentDuplicates also asks that file records be named, as extractors do.
- `moduleForFile`, `module.Derive` and the progress labels: a longest-prefix scan that no graph property depends on.
- Group cancellation, subprocess children (which a time-out kills), cross-repo links, scheduling policy, RPC and environment parsing.
- PoolLaws.NoDeadlock: panics inside a work call, and callers of the gate that cancel, are not interleaved with the pools; the gate's own cancel path is proved in `Gates`.
- Heartbeat.CpuOf: a CPU reading counts as taken at its tick; the percentage is the pair of CPU time and interval, before division and rounding.
- BenchCapture.ParseBenchCapture: `math.Ceil` of a floating-point product is the exact integer ceiling; `sort.Ints` is specified by an insertion sort.
- Pipeline.FoldsSendEdges: asks that in neither fold a record that stays wears a folded ID and owns an edge with an empty source (`Unworn`); for each fold alone `ExactUnlessWorn` shows that this is exactly when it holds.
- Pipeline.EveryEdgeOnce: asks the same; `PerFile.EachEdgeHasItsRow` does away with its condition on relationship IDs. Unnamed records, which stamping leaves alone, are not followed through the pipeline, nor are the passes between stamping and the folds.
- Suppression comments, matcher recognition and reporting in the linter; reading the log slice and matching its lines.
