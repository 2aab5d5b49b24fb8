# The comparison and repair pipeline, schema lattices, rule selector and partition IDs, verified

This Dafny project models the core of `sync_diff_inspector` (splitting tables into chunks, comparing them, repairing the
downstream, surviving crashes) and three algorithms beside it: the table lattices of `pkg/schemacmp`, the trie selector
of `pkg/table-rule-selector`, and the partition IDs of `pkg/column-mapping`. `dafny verify dfyconfig.toml` checks it.

## What is modelled

- **Conditions and chunks** (`Keys`, `Cover`, `Chunk`, `Range`). Values are texts with a rank in the column's order;
  rows may have NULL. Conditions are evaluated in SQL's three-valued logic, with their arguments consumed from left to
  right. Range objects are built up, copied and compiled in place.
- **Producers** (`RandomSplit`, `Nodes`, `Producers`, `Grouping`, `Iterators`, `ChunksIter`). The bucket and the random
  producer, fresh and resumed, as loops over range objects, tied to a reference sequence of chunks. Sampling is a
  parameter: any sorted keys inside the range, duplicates and too few of them included. The reference is a path of nodes,
  and its neighbours, order and coverage are what the other parts rely on; `Grouping` says how many rows go into a chunk.
- **Checkpoint and crashes** (`Heap`, `Checkpoints`, `Text`, `FileNames`, `Report`, `Protocol`, `Tallies`,
  `Progress`). The binary heap, the checkpoint object, the report object, the names of fix files, and a state machine whose
  steps are comparing a chunk, writing its file, inserting its node, popping, snapshotting, saving, losing a save, and
  crashing at any point.
- **Histories** (`Histories`, `PlannedRuns`). The state machine over the chunks that the producers emit for all tables,
  from the start and behind a saved chunk, with other sampled keys in each run.
- **Comparison and repair** (`RowOrder`, `RowMerge`, `CompareRows`, `Turns`, `Repair`, `SortedStreams`, `KeyedRepair`,
  `KeyedStreams`). The merge of sorted shards, the two-stream comparison, and what its statements do to a multiset of rows
  and to a table with a key. The general laws hold for any two streams: their conditions speak of the turns that the walk
  takes, which the comparisons of rows decide. For streams in order the conditions are restated on positions alone. The
  merge and the database put NULL first, and the comparison takes NULL in a quoted column for the empty string: both
  orders are modelled, and `SortedStreams` says when they agree.
- **Checksums and binary search** (`Checksum`, `BinSearch`, `RangeSearch`). Answers of queries are functions of abstract
  rows; a checksum is a set of bits with exclusive or.
- **Literals** (`Literals`), **partition IDs** (`PartitionId`).
- **Lattices and columns** (`Lattice`, `Schema`, `FieldTypes`). Values nested to any depth; field types, columns and the map
  of columns, and what their order and join mean for the definitions.
- **Rule selector** (`Patterns`, `Runes`, `Trie`, `MatchDelta`, `Selector`, `Single`, `CachedRuns`, `FlatRules`, `Listing`,
  `Reinsert`). Patterns as tokens, tries of nodes, the selector object with its cache and its runs, the flat list that the
  trie refines, and the listing of all rules.

## Where the code does less than one would expect

Each of these is proved, as a condition that is both needed and enough or as a concrete case; the code was followed.

- Rows with NULL in the index columns can be in no chunk (`Producers.BucketsAndNull`, `RandomSplit.CutsPartition`), and
  bucket bounds that go back cover rows twice (`Producers.BucketsCover`).
- A group that came out shorter than announced stops the checkpoint (`Nodes.NextIsAdjacent`, `Checkpoints.ShortGroupStalls`).
- The binary search reaches its fatal errors on NULL keys (`BinSearch.WrongCountIff`, `BinSearch.BothEqualIff`), and loses
  downstream rows with NULL (`BinSearch.SearchSound`).
- A replace without a unique key, or with NULL in it, or between two integers that are one float, leaves the old row
  (`Repair.BagRepair`, `KeyedRepair.KeyedRepairs`, `KeyedStreams.BigIntegersKept`).  The counts of a chunk are not always
  the differences (`Repair.CountsAreDifferences`).
- In a key of several columns with a quoted one that can be NULL, streams come in another order than the comparison expects:
  differences are counted that are none (`SortedStreams.CrossedCounts`), and a correct row can be written and then deleted
  (`KeyedStreams.CrossedDeletes`; the condition for all inputs is that of `KeyedRepair.KeyedRepairs`).
- Colons and the trash marker in names (`FileNames.FilesReadBack`, `Protocol.StallIff`,
  `Protocol.RepeatIffTrash`); negative bucket indexes (`FileNames.IdRoundTrip`).
- The selector's walk steps by runes (`FlatRules.RunesIff`), and its cache confuses names (`CachedRuns.RunsRightIff`).
- Partition IDs of different names can be equal (`PartitionId.MappedNamesIff`), and with no field every ID is rejected
  (`PartitionId.AcceptsIff`).
- A column missing on one side is not always below the joined column (`Schema.EncodedCanBeMissing`); the comment at
  `pkg/schemacmp/type.go:127-131` announces an error for AUTO_INCREMENT columns that the code does not return.

## Model

| member | source | states |
|---|---|---|
| `Keys.AfterIsLex` | sync_diff_inspector/chunk/chunk.go:266-367 | the three-valued comparison that the conditions express is, on keys without NULL, the strict lexicographic order |
| `Cover.ChainSelects` | sync_diff_inspector/chunk/chunk.go:266-367 | a chain of intervals that never turns back selects a row of its outer interval once, unless an inner bound agrees with the row up to its first NULL: then no interval selects it |
| `Cover.WholeChainOnce` | sync_diff_inspector/chunk/chunk.go:473-490 | a whole chain selects every row without NULL exactly once |
| `Cover.OnceIffOrdered` | sync_diff_inspector/chunk/chunk.go:473-490 | a chain open at both ends selects every row without NULL exactly once if and only if it never turns back |
| `Cover.TurningBackDoubles` | sync_diff_inspector/splitter/bucket.go:294-346 | where a chain turns back there is a row that it selects twice |
| `Chunks.CompareIsTotalOrder` | sync_diff_inspector/chunk/chunk.go:84-107 | comparing chunk identities is antisymmetric and transitive, and 0 means the same table, first bucket and index |
| `Chunks.EvalTerms` | sync_diff_inspector/chunk/chunk.go:284-345 | the disjunction built for one side, evaluated with its own arguments, is the lexicographic comparison with that side's values, and leaves the other arguments alone |
| `Chunks.AssembleMeaning` | sync_diff_inspector/chunk/chunk.go:346-366 | joining the shared prefix and the two sides is their conjunction, and uses up exactly the joined arguments |
| `Chunks.CompileMeaning` | sync_diff_inspector/chunk/chunk.go:266-367 | for bounds on all columns or on none, the whole condition consumes its arguments from left to right without a rest and is true exactly for lower < row <= upper, in three-valued logic: shared prefix and FALSE case change nothing |
| `Chunks.EvalTakes` | sync_diff_inspector/chunk/chunk.go:266-367 | each placeholder of a condition takes one argument, from the left, and with fewer arguments there is no outcome |
| `Chunks.CompiledArgs` | sync_diff_inspector/chunk/chunk.go:266-367 | so a compiled condition has as many placeholders as arguments |
| `Ranges.Range.constructor` | sync_diff_inspector/chunk/chunk.go:202-209 | a new range has no bounds and the offset table that goes with them |
| `Ranges.Range.AddBound` | sync_diff_inspector/chunk/chunk.go:394-397 | appends a bound and keeps the offset table in step |
| `Ranges.Range.Update` | sync_diff_inspector/chunk/chunk.go:399-422 | changes the sides wanted of a known column and nothing else, or appends an unknown one |
| `Ranges.Range.UpdateColumns` | sync_diff_inspector/splitter/random.go:268-280 | one update per index column, in turn; `UpdatedAllInterval` says what they do together |
| `Ranges.Range.UpdateLowers` | sync_diff_inspector/splitter/random.go:116-119 | a range that starts, column by column, at a saved range's upper values |
| `Ranges.UpdatedAllInterval` | sync_diff_inspector/chunk/chunk.go:399-422 | updating all columns replaces the wanted ends of the interval by the given keys, keeps the others, and leaves bounds on exactly these columns |
| `Ranges.Range.Copy` | sync_diff_inspector/chunk/chunk.go:424-438 | a fresh range with the same bounds; identity and first/last flags are not copied |
| `Ranges.Range.Init` | sync_diff_inspector/chunk/chunk.go:492-503 | sets identity and kind and stores the condition that its own bounds compile to |
| `Ranges.Range.ToString` | sync_diff_inspector/chunk/chunk.go:266-367 | the loops over the bounds build exactly the condition and arguments that `CompileMeaning` is about |
| `Ranges.InitChunks` | sync_diff_inspector/chunk/chunk.go:473-490 | gives the chunks of a group consecutive indexes from the given one, the same buckets and announced count, and compiles each |
| `RandomSplit.SplitRangeByRandom` | sync_diff_inspector/splitter/random.go:251-285 | copies of the parent narrowed to consecutive samples, the outer ends inherited; one chunk when no more are wanted |
| `RandomSplit.SplitPiece` | sync_diff_inspector/splitter/random.go:265-282 | one piece, its columns narrowed one at a time |
| `RandomSplit.PieceInterval` | sync_diff_inspector/splitter/random.go:251-285 | the intervals of the pieces are the cuts of the parent's interval at the samples |
| `RandomSplit.CutsChain` | sync_diff_inspector/splitter/random.go:251-285 | for sorted samples inside the parent, duplicates allowed: at most the wanted number of cuts, each starting where the one before ends, the outer ends inherited, and none turning back; when several are wanted, every sampled key ends one |
| `RandomSplit.CutsPartition` | sync_diff_inspector/splitter/random.go:251-285 | a row is in exactly one cut if it is in the parent and in none otherwise; the exception is a row with NULL that a sample agrees with up to that NULL |
| `Nodes.EndsAgree` | sync_diff_inspector/chunk/chunk.go:229-253 | first and last of the table by flags and bounds are first and last by intervals |
| `Nodes.LessIsCompare` | sync_diff_inspector/checkpoints/checkpoints.go:97-111 | the heap's order of nodes is the order of chunk identities |
| `Nodes.Increasing` | sync_diff_inspector/checkpoints/checkpoints.go:97-111 | along any path the producers can emit, identities increase strictly in both orders |
| `Nodes.AdjacentIsNext` | sync_diff_inspector/checkpoints/checkpoints.go:73-94 | two nodes of a path that look adjacent are neighbours: no chunk is skipped between them |
| `Nodes.NextIsAdjacent` | sync_diff_inspector/checkpoints/checkpoints.go:73-94 | neighbours look adjacent if and only if the first one's group, when another group of its table follows, has the announced number of chunks |
| `Nodes.TableChain` | sync_diff_inspector/source/chunks_iter.go:59-163 | every table that a path passes is covered by a chain of intervals, open at both ends |
| `Producers.GroupShape` | sync_diff_inspector/splitter/bucket.go:219-235 | the chunks of one group form a path from the range's lower end to its upper end, at most as many as wanted |
| `Producers.FromBucketsEmits` | sync_diff_inspector/splitter/bucket.go:294-360 | from any point of the bucket loop: a path that starts where the loop stands, runs to the end of the table unless the run failed, and whose chunks, but the last, can all be resumed from |
| `Producers.FromBucketsFails` | sync_diff_inspector/splitter/bucket.go:294-360 | the loop fails only at a bucket bound that cannot be analysed |
| `Producers.ResumeBucketsContinues` | sync_diff_inspector/splitter/bucket.go:249-293 | started from any saved chunk, also in the middle of a bucket's group, the producer goes on right behind it |
| `Grouping.FreshPlaced` | sync_diff_inspector/splitter/bucket.go:294-360 | of every chunk from scratch: its group's buckets hold as many rows as wanted, but fewer without the last one; a group of one bucket announces the nearest number of chunks of the wanted size, a half rounded up, one of several buckets a single chunk, and so does the rest; it is the cut that its index says, of its buckets' range at one sampled key less than announced |
| `Grouping.ResumedPlaced` | sync_diff_inspector/splitter/bucket.go:249-293 | of a resumed run the same, behind the rest of the saved group, which is cut into as many as were still announced |
| `Grouping.NearestOnce` | sync_diff_inspector/splitter/bucket.go:320-334 | there is just one such number |
| `Grouping.FreshEnds` | sync_diff_inspector/splitter/bucket.go:294-360 | a run fails exactly where rows enough for a chunk end at a bound that cannot be analysed, and else emits all buckets |
| `Grouping.ResumedEnds` | sync_diff_inspector/splitter/bucket.go:249-293 | nothing is resumed behind the last chunk of a table, and a saved bucket that is not there or cannot be analysed is an error |
| `Producers.FromBucketsInOrder` | sync_diff_inspector/splitter/bucket.go:294-360 | from any point of the loop: no emitted chunk turns back if and only if the bucket bounds at which chunks close, which the counts alone pick, never go back |
| `Producers.BucketsCover` | sync_diff_inspector/splitter/bucket.go:237-361 | from scratch, whatever the statistics: every row without NULL is in some chunk, and every one is in exactly one if and only if the bucket bounds at which chunks close never go back, as sorted bounds never do |
| `Producers.BucketsAndNull` | sync_diff_inspector/splitter/bucket.go:237-361 | under that condition a row with NULL in the index columns is in no chunk as soon as some chunk end agrees with it up to that NULL, and else in exactly one |
| `Producers.FreshHistory` | sync_diff_inspector/splitter/bucket.go:237-361 | whatever a fresh run has emitted up to any chunk but the last is a history to resume from |
| `Producers.ResumedHistory` | sync_diff_inspector/splitter/bucket.go:249-293 | so is what a resumed run has emitted, put behind the history it was resumed from |
| `Producers.BucketsCrashResume` | sync_diff_inspector/splitter/bucket.go:249-293 | crash and resume with unchanged statistics, through any number of earlier resumed runs and other samples each time: the chunks up to the saved one and those of the resumed run select every row without NULL exactly once |
| `Producers.FromRandomEmits` | sync_diff_inspector/splitter/random.go:126-161 | the random producer emits a path of the whole table, in order; every chunk but the last can be resumed from, also when the split gave fewer chunks than wanted |
| `Producers.ResumeRandomContinues` | sync_diff_inspector/splitter/random.go:105-125 | a resumed random run goes on right behind the saved chunk |
| `Producers.RandomCrashResume` | sync_diff_inspector/splitter/random.go:105-161 | the same partition of the rows without NULL for a resumed random run |
| `Grouping.RandomPlaced` | sync_diff_inspector/splitter/random.go:105-161 | each chunk of a random run is the cut of the whole table, or of what was left of it, that its index says |
| `Grouping.ChunksHold` | sync_diff_inspector/splitter/random.go:137-141 | a table gets the fewest chunks that hold its rows, and none when it is empty |
| `Grouping.ChunkSizes` | sync_diff_inspector/utils/utils.go:1015-1023 | the configured size counts; without it a table without index is not split, and one with an index gets chunks of 50000 rows or, when that would be more than 10000 chunks, 10000 or 10001 larger ones |
| `Iterators.ProduceChunks` | sync_diff_inspector/splitter/bucket.go:237-361 | the imperative bucket producer over range objects sends exactly the chunks of the reference, fresh or resumed |
| `Iterators.ProduceFrom` | sync_diff_inspector/splitter/bucket.go:294-360 | the bucket loop sends the chunks of the reference: small buckets merged, a single large one split, the rest in one last chunk; into how many is in `Grouping.FreshPlaced` |
| `Iterators.ProduceLeftOver` | sync_diff_inspector/splitter/bucket.go:277-292 | the chunks that the saved chunk's group still lacks |
| `Iterators.SplitChunkForBucket` | sync_diff_inspector/splitter/bucket.go:219-235 | splitting and numbering one group's range object gives the group of the reference |
| `Iterators.NewRandomIterator` | sync_diff_inspector/splitter/random.go:47-180 | the random iterator's chunks, fresh or resumed, are those of the reference |
| `Iterators.EveryRowOnce` | sync_diff_inspector/splitter/bucket.go:237-361 | end to end: with sorted bucket bounds, the compiled conditions of all sent chunks together return every row without NULL exactly once |
| `Iterators.EveryRowOnceAcrossCrash` | sync_diff_inspector/splitter/bucket.go:249-293 | and so do the conditions of what was sent up to the saved chunk and of what the resumed iterator sends |
| `ChunksIter.ProduceChunks` | sync_diff_inspector/source/chunks_iter.go:59-163 | tables in order, the saved table from its saved chunk on, an empty chunk's table skipped, every chunk with its table's index |
| `ChunksIter.SkippedChunk` | sync_diff_inspector/source/chunks_iter.go:59-163 | a table that is not compared gives one chunk, first and last by its flags and numbered by zeros |
| `ChunksIter.FreshPlan` | sync_diff_inspector/source/chunks_iter.go:59-163 | what a fresh run plans is one path from before the first table to the end of the last |
| `ChunksIter.ResumedPlan` | sync_diff_inspector/source/chunks_iter.go:59-163 | what a resumed run plans is a path from the saved chunk on |
| `ChunksIter.SkippedPlan` | sync_diff_inspector/source/chunks_iter.go:59-163 | and so it is behind an empty chunk |
| `ChunksIter.FreshWhole` | sync_diff_inspector/source/chunks_iter.go:59-163 | fresh bucket and random runs are such whole tables |
| `Heaps.Push` | sync_diff_inspector/checkpoints/checkpoints.go:164-166 | appending and moving up keeps a heap, with exactly one element more |
| `Heaps.Pop` | sync_diff_inspector/checkpoints/checkpoints.go:169-176 | the root taken out is minimal among all elements; the rest is a heap with exactly that element less |
| `Heaps.RootMinimal` | sync_diff_inspector/checkpoints/checkpoints.go:195-204 | no element of a heap is less than its root |
| `Checkpoints.Checkpoint.constructor` | sync_diff_inspector/checkpoints/checkpoints.go:178-192 | an empty heap, and a saved node before all tables |
| `Checkpoints.Checkpoint.Insert` | sync_diff_inspector/checkpoints/checkpoints.go:144-148 | the heap gains exactly the inserted node |
| `Checkpoints.Checkpoint.InitCurrentSavedID` | sync_diff_inspector/checkpoints/checkpoints.go:134-136 | sets the saved node |
| `Checkpoints.Checkpoint.GetChunkSnapshot` | sync_diff_inspector/checkpoints/checkpoints.go:195-204 | pops minimal nodes as long as each is adjacent to the one before, until the heap is empty or its minimum is not adjacent, and returns the last one |
| `Checkpoints.FlushAdvances` | sync_diff_inspector/checkpoints/checkpoints.go:195-204 | a flush moves the saved node over exactly the finished positions that follow it without a gap, and leaves the rest in the heap |
| `Checkpoints.CheckpointSafe` | sync_diff_inspector/checkpoints/checkpoints.go:144-204 | over every interleaving of inserts and flushes: every chunk up to the saved node has been inserted, and the heap holds exactly the inserted chunks behind it, once each |
| `Checkpoints.CheckpointProgress` | sync_diff_inspector/checkpoints/checkpoints.go:195-204 | after a flush the next chunk is not finished or not adjacent; where groups have the announced size, the saved node ends the longest finished prefix |
| `Checkpoints.ShortGroupStalls` | sync_diff_inspector/checkpoints/checkpoints.go:73-94 | a group that came out shorter than announced stops the checkpoint for good at its last chunk |
| `Reports.Report.Init` | sync_diff_inspector/report/report.go:294-312 | every table starts equal and without entries |
| `Reports.Report.SetTableDataCheckResult` | sync_diff_inspector/report/report.go:328-351 | a verdict adds to its own table's counts and to its own chunk's entry, which only a difference makes, and a difference makes the table unequal; what that means over whole runs is in `Tallies.AlwaysTallied` |
| `Reports.UniqueIDInjective` | sync_diff_inspector/utils/utils.go:959-967 | different tables have different identifiers, whatever their names contain |
| `Reports.TextLeqDecides` | sync_diff_inspector/source/source.go:195-201 | they are ordered by their first difference |
| `Reports.Report.GetSnapshot` | sync_diff_inspector/report/report.go:371-419 | tables not before the target in name order, each with exactly its chunks up to the given one; a key that cannot be parsed is an error |
| `Reports.Report.LoadReport` | sync_diff_inspector/report/report.go:95-107 | loaded tables replace the initial ones, the others stay |
| `FileNames.IdRoundTrip` | sync_diff_inspector/chunk/chunk.go:114-145 | a chunk identity comes back from its text if and only if both bucket indexes are non-negative; otherwise parsing fails |
| `FileNames.ParsedInOrder` | sync_diff_inspector/chunk/chunk.go:114-145 | an identity is parsed from left to right: a piece that is no number is an error, a missing one a panic, whichever comes first |
| `Text.AtoiSigned` | sync_diff_inspector/chunk/chunk.go:114-145 | digits are their number, with a sign in front its negative or the same, if 64 bits hold it |
| `Text.AtoiOnly` | sync_diff_inspector/chunk/chunk.go:114-145 | nothing else is a number |
| `FileNames.ParsedParts` | sync_diff_inspector/chunk/chunk.go:114-145 | bucket indexes without a dash are a panic, or an error if the first is no number; a fix file's name fails as the part of it that names the chunk |
| `FileNames.FileRoundTrip` | sync_diff_inspector/utils/utils.go:1032-1057 | with names without colons, a fix file's name gives back its chunk |
| `FileNames.FilesReadBack` | sync_diff_inspector/utils/utils.go:1032-1057 | fix files of a table are read back for every chunk if and only if neither of its names contains a colon |
| `FileNames.LegibleIff` | sync_diff_inspector/utils/utils.go:1032-1057 | with colons in them: the file name of any chunk can be parsed if and only if what the names have behind their second colon reads as the numbers of a chunk do |
| `FileNames.PassedOver` | sync_diff_inspector/diff.go:825-891 | files without the extension or with fewer than two colons are passed over |
| `Protocol.Always` | sync_diff_inspector/diff.go:397-488 | the invariant of the whole pipeline holds in every state of every run, whatever the interleaving of consume, write, insert and flush, and wherever it crashes |
| `Protocol.CrashConsistent` | sync_diff_inspector/diff.go:166-209 | right after a restart the report holds exactly the differing chunks up to the saved one with the counts they were given, and the directory exactly their fix files: nothing lost, nothing counted twice |
| `Protocol.NothingFails` | sync_diff_inspector/diff.go:777-891 | in no reachable state does a write meet a file of its own name, a file name stop a restart, or a report key stop a snapshot |
| `Progress.NeverStuck` | sync_diff_inspector/diff.go:397-488 | in every reachable state each chunk can be compared with any outcome, written and inserted, the background loop can make its next step and lose a save, and the program can crash and start again over any chunks that continue the saved one |
| `Protocol.TablesCovered` | sync_diff_inspector/diff.go:166-209 | for any emitted chunks, over any number of crashes: those in the checkpoint and those of the current run select every row without NULL of each table they reach exactly once, if their intervals never turn back |
| `Histories.HistoryContinues` | sync_diff_inspector/source/chunks_iter.go:59-163 | wherever a history of emitted chunks is cut off, what the producers of all tables emit behind the last chunk kept makes it one again, up to the end of the last table |
| `PlannedRuns.LeadsReachable` | sync_diff_inspector/diff.go:166-209 | runs that start and restart with what the producers emit are runs of the pipeline, and their chunks are such a history in every state |
| `PlannedRuns.Restarts` | sync_diff_inspector/diff.go:166-209 | from every state such a run reaches, a crash can be followed by a run over what the producers emit behind the saved chunk, whatever keys they sample |
| `PlannedRuns.EveryRowPlanned` | sync_diff_inspector/diff.go:166-209 | in every state of such runs, after any number of crashes and with sorted bucket bounds: the chunks select every row without NULL of every table exactly once |
| `Protocol.SnapshotReport` | sync_diff_inspector/report/report.go:371-419 | with the tables in the order that sorting gives them, a snapshot holds exactly the differing chunks up to its node |
| `Tallies.AlwaysTallied` | sync_diff_inspector/report/report.go:328-351 | in every state of every run, wherever it crashes: a table is reported as unequal if and only if a compared chunk of it differed or it was loaded as unequal, and its rows are the sums over the verdicts of the current run |
| `Tallies.RestartTallied` | sync_diff_inspector/report/report.go:371-419 | right after a restart a table is unequal if and only if it was unequal when the saved snapshot was taken and is in it, as every table with a kept chunk that differed is; no rows are counted yet |
| `Tallies.NoFalseAlarm` | sync_diff_inspector/report/report.go:328-351 | however many crashes there were, of a table that is reported as unequal some chunk was compared and differed |
| `Protocol.EarlierReserved` | sync_diff_inspector/source/source.go:195-201 | because the tables are sorted by name, no table before the saved chunk's is dropped from a snapshot that should keep it |
| `Protocol.CrashFiles` | sync_diff_inspector/diff.go:825-891 | removing later files leaves the fix files of exactly the chunks up to the saved one |
| `Protocol.OthersStay` | sync_diff_inspector/diff.go:825-891 | and leaves every file whose name is none of a fix file |
| `Protocol.ContainsIff` | sync_diff_inspector/diff.go:825-891 | a path contains the trash marker if and only if it is the marker with text before and behind it |
| `Protocol.RepeatIffTrash` | sync_diff_inspector/diff.go:825-891 | with names without colons, the fatal error on a repeated file can be reached if and only if some table's name contains the trash marker, which keeps its files from being removed |
| `Protocol.StallIff` | sync_diff_inspector/diff.go:825-891 | whatever the names: a state from which no restart succeeds can be reached if and only if some table's names are not legible in a file name and do not contain the trash marker |
| `Protocol.InterruptedRestart` | sync_diff_inspector/diff.go:825-891 | a restart that is cut short while it moves files away, and started anew, ends in the same state, whatever part of them was moved |
| `RowOrder.LessThan` | sync_diff_inspector/source/common/rows.go:42-93 | the loop over the key columns decides the heap's order, NULL first |
| `RowOrder.CompareData` | sync_diff_inspector/utils/utils.go:536-680 | the loop over the columns decides whether two rows count as the same, and if not the loop over the keys how they compare |
| `RowOrder.SameBut` | sync_diff_inspector/utils/utils.go:568-618 | rows that agree in all other columns count as the same: by a FLOAT column if both are NULL or both numbers at most a millionth apart; by a JSON column if text or value are equal, NULL counting as NULL or the empty text; by any other if equal |
| `RowOrder.SameSymmetric` | sync_diff_inspector/utils/utils.go:568-618 | every row is the same as itself, and it does not matter which of two rows is upstream |
| `RowOrder.SameAgrees` | sync_diff_inspector/utils/utils.go:568-618 | rows that count as the same have NULL in the same columns, JSON aside, and equal values but for that tolerance |
| `RowOrder.CmpPreorder` | sync_diff_inspector/utils/utils.go:624-680 | the key comparison is a total preorder |
| `RowOrder.LessIsCmp` | sync_diff_inspector/source/common/rows.go:42-93 | on keys without NULL the order of the shard merge is the order of the row comparison |
| `RowMerge.MultiSourceRowsIterator.constructor` | sync_diff_inspector/source/mysql_shard.go:206-233 | after priming, the heap holds exactly the head of every shard that has one, and what is still to come is all rows of all shards |
| `RowMerge.MultiSourceRowsIterator.Refill` | sync_diff_inspector/source/mysql_shard.go:294-307 | puts the next row of a shard into the heap if there is one |
| `RowMerge.MultiSourceRowsIterator.Next` | sync_diff_inspector/source/mysql_shard.go:285-309 | none exactly when nothing is left, and none ever after; else a row taken from what is left that no remaining row is less than, the shards staying sorted |
| `RowMerge.MergedSorted` | sync_diff_inspector/source/mysql_shard.go:285-309 | any sequence of such results until the end is a sorted permutation of all shards' rows |
| `CompareRows.Compare` | sync_diff_inspector/diff.go:638-774 | the two-stream loop returns exactly the statements, the two counts and the verdict of the reference merge, with and without exporting |
| `CompareRows.DeleteRest` | sync_diff_inspector/diff.go:673-692 | when the upstream has ended, one delete per remaining downstream row |
| `CompareRows.InsertRest` | sync_diff_inspector/diff.go:694-712 | when the downstream has ended, one insert per remaining upstream row |
| `CompareRows.Differ` | sync_diff_inspector/diff.go:714-762 | what one pair of rows gives: nothing, a delete, an insert or a replace, with its counts |
| `Repair.EqualIff` | sync_diff_inspector/diff.go:638-774 | no operation is emitted if and only if the two streams agree row by row |
| `Repair.BagLaw` | sync_diff_inspector/diff.go:653-773 | all columns as key, any two streams: applied in order to the downstream rows, the operations give the upstream rows plus the rows that replaces were meant to overwrite |
| `Repair.NoReplaceIff` | sync_diff_inspector/diff.go:714-762 | for any two streams: no replace is emitted if and only if the walk gets to no two rows that differ and compare as equal; where it gets to is decided by comparing rows alone |
| `Repair.BagRepair` | sync_diff_inspector/diff.go:653-773 | so for any two streams with exactly compared columns the result is exactly the upstream multiset if and only if the walk gets to no such pair |
| `Repair.BigIntegersStay` | sync_diff_inspector/utils/utils.go:624-680 | two integers that are one float: the replaced row is left beside the new one |
| `Repair.KeyDecidesNoReplace` | sync_diff_inspector/utils/utils.go:624-680 | where comparison 0 means the same row, no replace is emitted, whether the streams are sorted or not |
| `Repair.CountsAreDifferences` | sync_diff_inspector/diff.go:653-773 | for any two streams with exactly compared columns, `rowAdd` and `rowDelete` are the sizes of the two multiset differences if and only if no row is displaced: in both streams, each time without the walk matching it |
| `Repair.ExchangedCounts` | sync_diff_inspector/diff.go:653-773 | any two different rows of one position, in exchanged order, are counted as two differences each way, and there is none |
| `Repair.BlankStatements` | sync_diff_inspector/diff.go:724-762 | with exporting switched off, the list of statements still has one empty entry per difference met while both streams had rows |
| `SortedStreams.SortedIsAscending` | sync_diff_inspector/source/common/rows.go:42-93 | streams in the order of the merge are in the order of the comparison, and the other way round, if no quoted key column holds NULL |
| `SortedStreams.SingleIsAscending` | sync_diff_inspector/utils/utils.go:624-680 | the former are also in the latter with a single key column, NULL or not, in which nothing comes before the empty string |
| `SortedStreams.AtOpposite` | sync_diff_inspector/diff.go:653-773 | in the order of the comparison the walk matches or swaps exactly the opposite rows, those at the same offset among the rows of one position of the order |
| `SortedStreams.AlignedIff` | sync_diff_inspector/diff.go:653-773 | so there the walk swaps no two rows, as `BagRepair` asks, if and only if opposite rows are the same |
| `SortedStreams.StrictInPlace` | sync_diff_inspector/diff.go:653-773 | and with one row per position on each side no row is displaced, as `CountsAreDifferences` asks |
| `SortedStreams.CrossedCounts` | sync_diff_inspector/diff.go:653-773 | for any two rows that the merge and the comparison order differently: one row is missing downstream, and two differences are counted one way and one the other |
| `SortedStreams.CrossedRows` | sync_diff_inspector/utils/utils.go:624-680 | there are such rows, (NULL, 2) and ('', 1) in a key that starts with a quoted column |
| `KeyedRepair.KeyedLaw` | sync_diff_inspector/diff.go:653-773 | with a unique key, for any two streams, applied to the downstream rows and any other rows, and for every key that no turn of the walk breaks: the other rows with the key stay if no upstream row has it, and else the key ends with its last upstream row |
| `KeyedRepair.BrokenLaw` | sync_diff_inspector/diff.go:653-773 | a key that a turn breaks ends with the row named there, or without one, and never as it should: a matched row that another one had taken the place of, a row deleted after it was written, a replaced row whose key no upstream row has |
| `KeyedRepair.NullLaw` | sync_diff_inspector/diff.go:653-773 | for any two streams, a row with NULL in the key is there as often as it should be and once more for each time it was to be replaced |
| `KeyedRepair.KeyedRepairs` | sync_diff_inspector/diff.go:653-773 | for any two streams, over nullable key columns or not: the repaired chunk is exactly the upstream rows, of rows with one key the last, if and only if no turn of the walk breaks a key |
| `KeyedStreams.UniqueRepairs` | sync_diff_inspector/diff.go:653-773 | for two tables with one row per key, in any order, exactly compared: the result is exactly the upstream rows if and only if each downstream row that is written over has the key of an upstream row, and no row is deleted downstream that the walk had passed upstream before |
| `KeyedStreams.CoveredRepairs` | sync_diff_inspector/diff.go:653-773 | for streams in the order of the comparison, where different key numbers have different positions: if and only if every downstream row opposite a different upstream row has the key of some upstream row |
| `KeyedStreams.CoveredIff` | sync_diff_inspector/utils/utils.go:624-680 | with no quoted key column, different key numbers at different positions, that is: if and only if opposite rows are the same or have the same key without NULL |
| `KeyedStreams.PrimaryKeyRepairs` | sync_diff_inspector/diff.go:653-773 | so always for streams in the order of the merge with no NULL in the key, if different key numbers have different positions, which integers beyond 2^53 need not |
| `KeyedStreams.PrimaryKeyCounts` | sync_diff_inspector/diff.go:653-773 | and then, with one row per key on each side, both counts are the multiset differences |
| `KeyedStreams.LastOfCount` | sync_diff_inspector/diff.go:653-773 | which upstream rows those are: all copies of a row with NULL in the key, else the row if no later one has its key |
| `KeyedStreams.FinalExact` | sync_diff_inspector/utils/utils.go:568-622 | with exactly compared columns it is literally those rows |
| `KeyedStreams.FinalMatches` | sync_diff_inspector/utils/utils.go:568-622 | with floats or JSON outside the key, those rows and the remaining ones can be listed, copy for copy, so that each row stands for the one it is listed with: NULL in the same columns, JSON aside, and equal values but for the tolerance of floats |
| `KeyedStreams.NullKeyStays` | sync_diff_inspector/diff.go:748-760 | any two rows that a replace is emitted for and that do not share a key without NULL: both are left |
| `KeyedStreams.BigIntegersKept` | sync_diff_inspector/utils/utils.go:624-680 | as do two integers that are one float |
| `KeyedStreams.ClashReplaced` | sync_diff_inspector/diff.go:748-760 | but of two different rows with one key the new one takes the place of the old one |
| `KeyedStreams.CollatedTexts` | sync_diff_inspector/utils/utils.go:624-680 | as are two texts at one position of the collation |
| `KeyedStreams.LaterWriteRemoves` | sync_diff_inspector/diff.go:748-760 | a row that replaces one with another key, or with NULL in its own, leaves it, and a row behind it with that key still takes its place |
| `KeyedStreams.WrittenRowDeleted` | sync_diff_inspector/diff.go:748-760 | a row that replaces one with NULL in the key and is there behind it is deleted right after it was written, and the wrong one stays |
| `KeyedStreams.QuotedNulls` | sync_diff_inspector/utils/utils.go:624-680 | there are such rows, NULL and the empty string in a quoted key column |
| `KeyedStreams.CrossedDeletes` | sync_diff_inspector/diff.go:653-773 | for any two rows that the merge and the comparison order differently: the correct row is written and then deleted, and nothing is left |
| `Checksum.GetCountAndMd5` | sync_diff_inspector/source/mysql_shard.go:96-139 | the loop over the answers adds counts, combines checksums by exclusive or, and remembers a failure |
| `Checksum.AnyOrder` | sync_diff_inspector/source/mysql_shard.go:96-139 | the total does not depend on the order in which the shards answer |
| `Checksum.ShardsAddUp` | sync_diff_inspector/source/mysql_shard.go:96-139 | the total over the shards is the answer over all their rows together |
| `Checksum.CountIs` | sync_diff_inspector/source/mysql_shard.go:96-139 | the count is the number of rows that the range selects |
| `Checksum.XorIs` | sync_diff_inspector/source/mysql_shard.go:96-139 | a bit of the checksum is one if and only if it is one in an odd number of them |
| `BinSearch.CountHalves` | sync_diff_inspector/diff.go:563-576 | the counts of the two halves and of the rows that neither half selects add up to the count of the range |
| `BinSearch.XorHalves` | sync_diff_inspector/diff.go:604-636 | and so do the checksums when no row is lost |
| `BinSearch.WrongCountIff` | sync_diff_inspector/diff.go:571-576 | the count fatal is reached at a step exactly when an upstream row of the range has NULL where it still agrees with the middle key |
| `BinSearch.NeverFatal` | sync_diff_inspector/diff.go:532-602 | started on a differing range with its upstream count, and without NULL in the keys, neither fatal is reached; the count decreases with every step, so the search ends |
| `BinSearch.FailedOnError` | sync_diff_inspector/diff.go:532-602 | the search fails only where the middle row of a range with too many rows cannot be read |
| `BinSearch.Returns` | sync_diff_inspector/diff.go:532-602 | so with keys that are there and can be read, a search started on a differing range returns a range |
| `BinSearch.ReturnsFinal` | sync_diff_inspector/diff.go:532-602 | that range has few enough rows upstream, or no middle row, or differs on both sides of its middle, or has all upstream rows on one side |
| `BinSearch.FinalReturned` | sync_diff_inspector/diff.go:532-602 | and it is the first such range: one that is like that is returned as it is |
| `BinSearch.SearchSound` | sync_diff_inspector/diff.go:532-602 | the returned range differs; every row of the original range, with NULL or not, is exactly once in it or in ranges that are equal on both sides, but for the rows that at some step agree with the middle key up to a NULL, which are in none; no upstream row and no row without NULL is such a row |
| `BinSearch.BothEqualIff` | sync_diff_inspector/diff.go:583-601 | both halves are equal and the range is not, the second fatal, exactly when a downstream row of the range has NULL where it still agrees with the middle key |
| `BinSearch.BothEqualHappens` | sync_diff_inspector/diff.go:583-601 | and a concrete such row reaches it |
| `RangeSearch.Halve` | sync_diff_inspector/diff.go:540-561 | two copies of the range object, one up to the middle key and one behind it |
| `RangeSearch.BinSearchRange` | sync_diff_inspector/diff.go:532-602 | the search over range objects ends as the reference does, with an object for its range |
| `Literals.LiteralRoundTrip` | sync_diff_inspector/utils/utils.go:173-178 | read as a string literal by section 9.1.1 of the MySQL 8.0 Reference Manual, backslash escapes on, an escaped value gives back the value and ends at its own closing quote |
| `Literals.EscapeInjective` | sync_diff_inspector/utils/utils.go:173-178 | different values are written differently |
| `PartitionId.ComputePartitionId` | pkg/column-mapping/column.go:491-519 | the running shift puts each enabled field at its place; it fails exactly when a field does |
| `PartitionId.NameAccepted` | pkg/column-mapping/column.go:521-538 | a name is accepted if and only if it is the prefix, which gives 0, or prefix and separator with digits behind them whose number fits |
| `PartitionId.MappedFields` | pkg/column-mapping/column.go:477-519 | a row is mapped if and only if all configured fields can be read and its ID is in range; the other fields are 0 |
| `PartitionId.MappedLayout` | pkg/column-mapping/column.go:477-519 | the configured fields stand below the sign bit, each in its own width and without room for the others, and the original ID below them |
| `PartitionId.ShlMultiplies` | pkg/column-mapping/column.go:477-519 | shifting is multiplying by a power of two |
| `PartitionId.OrBits` | pkg/column-mapping/column.go:477-489 | a bit of the or is one if and only if it is one on either side |
| `PartitionId.PackedIsSum` | pkg/column-mapping/column.go:477-489 | for widths within 63 bits and any fields left out: or-ing the four parts is adding them, and the result is below 2^63 |
| `PartitionId.PackedInjective` | pkg/column-mapping/column.go:477-519 | different field numbers or original IDs give different results |
| `PartitionId.MappedInjective` | pkg/column-mapping/column.go:442-538 | two mapped rows under rules with the same fields get the same ID if and only if all four parts agree, and the ID is below 2^63 |
| `PartitionId.NamesIff` | pkg/column-mapping/column.go:521-538 | two names that are accepted give the same number if and only if what is behind prefix and separator is equal without leading zeros, the bare prefix counting as 0 |
| `PartitionId.MappedNamesIff` | pkg/column-mapping/column.go:442-538 | so two mapped rows get the same ID if and only if those texts, of each field that is used, and the original IDs are equal |
| `PartitionId.OriginLimit` | pkg/column-mapping/column.go:35-40 | original IDs have all the bits that the widths of the fields leave below the sign bit |
| `PartitionId.AcceptsIff` | pkg/column-mapping/column.go:35-40 | some original ID is accepted if and only if the widths add up to 1 to 63: with none the limit is the sign bit, a negative number |
| `PartitionId.NumberedName` | pkg/column-mapping/column.go:521-538 | a name made of prefix, separator and number gives the number back if it fits its width, else an error |
| `PartitionId.NamesCollide` | pkg/column-mapping/column.go:521-538 | such names for every prefix and separator: the bare prefix and 0, and 1 with and without a leading zero |
| `PartitionId.DefaultLimit` | pkg/column-mapping/column.go:35-40 | the largest original ID the program starts with is that of its default widths |
| `Lattices.Compare` | pkg/schemacmp/lattice.go:107-752 | the comparison, loops over tuples, lists and maps included, returns the order of the two values, or that there is none |
| `Lattices.JoinValues` | pkg/schemacmp/lattice.go:107-782 | the join, loops included, returns the join of the reference in whatever order maps are walked |
| `Lattices.CompareTuple` | pkg/schemacmp/lattice.go:486-507 | combining the parts' results in a loop compares the tuples |
| `Lattices.CompareIndexMap` | pkg/schemacmp/lattice.go:726-752 | a missing entry counts as the greatest value |
| `Lattices.CombineOrders` | pkg/schemacmp/lattice.go:510-522 | combining two results is comparing both parts together |
| `Lattices.BelowReflexive` | pkg/schemacmp/lattice.go:86-101 | comparing is a partial order on all values: reflexive |
| `Lattices.BelowTransitive` | pkg/schemacmp/lattice.go:86-101 | transitive |
| `Lattices.BelowAntisymmetric` | pkg/schemacmp/lattice.go:86-101 | antisymmetric |
| `Lattices.JoinIsLeastUpperBound` | pkg/schemacmp/lattice.go:86-101 | for values nested to any depth, the join exists exactly when there is an upper bound, and is the least one |
| `Lattices.JoinCommutes` | pkg/schemacmp/lattice.go:86-101 | the join is symmetric, definedness included |
| `Lattices.JoinAssociates` | pkg/schemacmp/lattice.go:86-101 | and associative, definedness included |
| `Lattices.BelowIsJoin` | pkg/schemacmp/lattice.go:86-101 | one value is below another exactly when the other is their join |
| `Lattices.TypeOrders` | pkg/schemacmp/util.go:20-68 | the comparisons by branches order the integer and the blob types totally, by width |
| `Schema.TypeRoundTrip` | pkg/schemacmp/type.go:60-115 | decoding an encoded field type gives the type back |
| `Schema.MissingIsUpper` | pkg/schemacmp/table.go:190-198 | a column is below what it becomes where it was missing if and only if its default flags and default value allow it |
| `Schema.JoinColumnsUpper` | pkg/schemacmp/table.go:179-198 | the joined column map is above each input if and only if every column that the other one lacks can be missing |
| `Schema.EncodedCanBeMissing` | pkg/schemacmp/type.go:123-148 | which columns of a table definition those are; for an AUTO_INCREMENT column without default the code reports no error, although its comment says it does |
| `FieldTypes.TypesBelow` | pkg/schemacmp/type.go:60-115 | two encoded field types are ordered as their definitions permit values: width, length, NULL, key strength, default, and equal texts |
| `FieldTypes.TypesJoin` | pkg/schemacmp/type.go:60-115 | they have a join if and only if there is such a common definition, and it is its encoding: the wider sizes, NULL if one allows it, the weaker key, the default that one has |
| `FieldTypes.PermitsJoined` | pkg/schemacmp/type.go:60-115 | that definition permits what both permit |
| `FieldTypes.JoinedLeast` | pkg/schemacmp/type.go:60-115 | and every other one that does permits it |
| `FieldTypes.WidthsGrow` | pkg/schemacmp/util.go:20-68 | integers and blobs by their codes: which one is wider |
| `FieldTypes.IndexesBelow` | pkg/schemacmp/table.go:97-111 | of two tables' indexes those are below that have all indexes of the other, on the same columns and at least as strict |
| `FieldTypes.IndexesJoin` | pkg/schemacmp/table.go:97-111 | and their join has the indexes that both have on the same columns, unique or primary where both are |
| `FieldTypes.LackingBelow` | pkg/schemacmp/table.go:179-188 | a table without a column is below one with it if and only if the column has a default or is AUTO_INCREMENT |
| `FieldTypes.ColumnsJoin` | pkg/schemacmp/type.go:201-218 | two column definitions have a join if and only if their types have, nothing else differs, and the common type is not AUTO_INCREMENT in no key |
| `FieldTypes.MissingColumn` | pkg/schemacmp/table.go:190-198 | a column that one table lacks is in no key of the joined table and has a default: the standard value if it is NOT NULL and had none |
| `FieldTypes.StandardValues` | pkg/schemacmp/type.go:154-186 | those values by the codes of the types, with as many decimals as the type has |
| `Schema.ColumnsPartialOrder` | pkg/schemacmp/table.go:179-188 | comparing column maps, a missing column on the way up needing a default, is a partial order |
| `Schema.JoinColumnsCommutes` | pkg/schemacmp/table.go:179-198 | the join of column maps is symmetric, definedness included |
| `Schema.JoinKeepsColumn` | pkg/schemacmp/type.go:201-218 | the join of two encoded columns is the encoding of a column again |
| `Schema.CompareColumns` | pkg/schemacmp/lattice.go:702-752 | walking two column maps in any order gives their order |
| `Schema.JoinColumnMaps` | pkg/schemacmp/lattice.go:755-782 | walking two column maps in any order gives their join |
| `Patterns.MatchChar` | pkg/table-rule-selector/trie_selector.go:183-190 | the loop over the ranges decides membership, negated or not; what is a member is in `Patterns.ItemAccepts` |
| `Patterns.ListedFirst` | pkg/table-rule-selector/trie_selector.go:264-295 | from the text between brackets: two characters with a dash between them list those from the one to the other, any other character itself, and no text nothing |
| `Patterns.ItemAccepts` | pkg/table-rule-selector/trie_selector.go:183-295 | an item accepts what its text lists, behind an exclamation mark all other characters, and a lone exclamation mark that character |
| `Patterns.EqualAccepts` | pkg/table-rule-selector/trie_selector.go:160-181 | range items that the trie merges accept the same characters |
| `Patterns.GetRangeItem` | pkg/table-rule-selector/trie_selector.go:264-295 | the loop reads exactly the text up to the first closing bracket, or reports that there is none |
| `Patterns.RangeRoundTrip` | pkg/table-rule-selector/trie_selector.go:192-206 | printing an item that was read reproduces the text of the pattern |
| `Patterns.PatternRoundTrip` | pkg/table-rule-selector/trie_selector.go:551-580 | and so does printing all tokens of a valid pattern |
| `Patterns.MeansPlain` | pkg/table-rule-selector/trie_selector.go:582-628 | from the text of a pattern to names: nothing matches the empty name, a last star any name, a question mark one character, any other character itself |
| `Patterns.MeansBracket` | pkg/table-rule-selector/trie_selector.go:582-628 | a closed bracket matches one character that its item accepts, one that is never closed itself |
| `Patterns.GoodPlain` | pkg/table-rule-selector/trie_selector.go:298-375 | a pattern is bad exactly if a star outside of brackets is not its last character |
| `Patterns.SameTokensMatch` | pkg/table-rule-selector/trie_selector.go:160-181 | patterns that the trie merges match the same names |
| `Trie.LookupUpdate` | pkg/table-rule-selector/trie_selector.go:298-375 | a change at a path shows at the paths that the trie does not tell from it, and at no other |
| `Trie.UpdateKeeps` | pkg/table-rule-selector/trie_selector.go:298-375 | making a path changes no match |
| `Runes.AsciiIsNarrow` | pkg/table-rule-selector/trie_selector.go:591-591 | names in ASCII have only runes of one byte |
| `Runes.EncodedWidth` | pkg/table-rule-selector/trie_selector.go:591-591 | behind the encoding of any code point (RFC 3629) the step is as wide as that encoding |
| `Runes.WideIsEncoded` | pkg/table-rule-selector/trie_selector.go:591-591 | and it is wider than a byte nowhere else |
| `Trie.TextReadsBack` | pkg/table-rule-selector/trie_selector.go:551-580 | the printed text of a path is read as that path |
| `MatchDeltas.UpdateDelta` | pkg/table-rule-selector/trie_selector.go:298-375 | a change at a path exchanges, in the match of every name that the path matches, what its item gave for what it gives now, and does nothing to any other match |
| `Singles.PatternTells` | pkg/table-rule-selector/trie_selector.go:298-375 | for any two different names there is a pattern that matches just one of them |
| `Selectors.MatchNode` | pkg/table-rule-selector/trie_selector.go:582-628 | the loop along the literal characters with its side trips returns the items of the reference walk, in order |
| `Selectors.Walks` | pkg/table-rule-selector/trie_selector.go:391-417 | the rules of the matching schemas and then, schema by schema, those of the matching tables |
| `Selectors.KeysIff` | pkg/table-rule-selector/trie_selector.go:664-674 | two pairs of names share a cache key if and only if they are equal, or both of the empty schema, or one schema takes in a joint of the other pair's key, stated on the names |
| `Selectors.QuoteInjective` | pkg/table-rule-selector/trie_selector.go:664-674 | so for schemas that are not empty and have no backticks, the cache key tells all pairs apart |
| `Selectors.FailedPairKeeps` | pkg/table-rule-selector/trie_selector.go:246-262 | an insertion that fails below a schema pattern changes no lookup, which is why the cache may stay |
| `Selectors.MatchedRight` | pkg/table-rule-selector/trie_selector.go:378-419 | a lookup of names that are cached right is right, and keeps right every pair it is not confused with |
| `Selectors.ConfusedWrong` | pkg/table-rule-selector/trie_selector.go:378-419 | of two confused pairs asked one after the other, the second gets the rules of the first |
| `CachedRuns.RunsRightIff` | pkg/table-rule-selector/trie_selector.go:209-419 | for any set of names: every lookup of them is right, in every run of insertions, removals and lookups, if and only if no two of them are confused |
| `CachedRuns.PlainDistinct` | pkg/table-rule-selector/trie_selector.go:664-674 | as is the case when no schema is empty or has a backtick |
| `CachedRuns.ConfusedNames` | pkg/table-rule-selector/trie_selector.go:664-674 | and not with two tables of the empty schema, or with backticks in a schema and a table |
| `Selectors.Selector.InsertRule` | pkg/table-rule-selector/trie_selector.go:214-262 | does what one insertion of the trie does, clears the cache if it succeeds, and keeps every cached answer right |
| `Selectors.Selector.Remove` | pkg/table-rule-selector/trie_selector.go:423-464 | does what one removal of the trie does, clears the cache if it succeeds, and keeps every cached answer right |
| `Selectors.Selector.Match` | pkg/table-rule-selector/trie_selector.go:378-419 | from the cache, or by a walk that is then cached: right if what is cached for these names is, and every other pair not confused with them stays right |
| `Selectors.Selector.AddToCache` | pkg/table-rule-selector/trie_selector.go:650-658 | the new entry joins the others, of which any one goes when there are more than 1024 |
| `FlatRules.LookupsDelta` | pkg/table-rule-selector/trie_selector.go:298-375 | new rules under a pattern or a pair of patterns show in exactly the lookups that these patterns match, in exchange for the old ones |
| `FlatRules.FlatDelta` | pkg/table-rule-selector/trie_selector.go:298-375 | and so they do on the flat list |
| `FlatRules.StepRefines` | pkg/table-rule-selector/trie_selector.go:214-262 | one operation succeeds on the trie exactly when it does on the list, and keeps both in agreement |
| `FlatRules.TrieRefinesList` | pkg/table-rule-selector/trie_selector.go:214-628 | after any sequence of operations, failed ones included, trie and list have given the same answers, and every two names find, as a multiset, exactly the rules of all matching schema patterns and pairs, patterns being matched rune by rune as the walk does |
| `FlatRules.RunesIff` | pkg/table-rule-selector/trie_selector.go:582-628 | for any two names: after all sequences of operations the trie finds the rules whose patterns match byte by byte if and only if every rune of both names is one byte wide |
| `Listings.Travel` | pkg/table-rule-selector/trie_selector.go:551-580 | visits every path of a trie and enters its rules and next level under the path's text, characters in any order |
| `Listings.AllRules` | pkg/table-rule-selector/trie_selector.go:525-549 | lists exactly the patterns, and pairs, that have rules, each with its rules |
| `Reinsertions.SameHasSameMatch` | pkg/table-rule-selector/trie_selector.go:388-418 | lists with the same rules under all patterns match the same |
| `Reinsertions.ReinsertedMatchesSame` | pkg/table-rule-selector/trie_selector.go:525-580 | inserting everything that was listed into an empty selector, in any order, gives the same match on all names |

## Left out

- Databases, queries, connections, clocks, progress output and configuration: queries are functions of abstract rows, and
  sampled rows, histogram buckets and the order of answers are parameters.
- The user's extra range condition of a table: taken as true in every query.
- Scheduling inside the worker pool: the protocol's steps interleave freely, but one table's groups reach the chunk iterator
  as a sequence.
- Errors of a single query or of a writer, and the report's error state: a chunk is compared, or the program stops.
- `Report.Result`, and totals over several runs: the upstream and downstream totals of a table are those of the current run
  (`Tallies.AlwaysTallied`).
- Float comparison: ranks are reals, and a float column is compared within the code's tolerance; the repair laws need key
  columns that are compared exactly, and float or JSON columns elsewhere enter through "stands for".
- Keys in the database: two rows have the same key if their quoted key columns are at the same position of the collation and
  the other ones hold the same number; the database's collation is taken to be the one the program compares with.
- Deletes: a delete statement removes a row equal to the deleted one, not one that differs from it in case only.
- Protocol.RepeatIffTrash: for names without colons; which files a restart keeps for other names, when it does not fail on
  them (`Protocol.StallIff`), is not followed further than the pieces that are parsed.
- A column that is missing from a row during comparison: every row has all columns.
- The text of fix statements apart from quoting, with annotations and hints.
- Unique keys of a table other than the order key: a replace is modelled over the order key only.
- Ranges: a bound list is a value, so that two ranges never share one.
- Trie: nodes are values under the selector object, and following a path is a recursion; sharing of nodes between
  patterns, and rules in the middle of a walk that another goroutine changes, are not modelled.
- PlannedRuns.EveryRowPlanned: for tables whose bucket bounds can be analysed and never go back; a producer that stops on
  an error ends the run, and the statistics of a table are the same in all runs.
- PartitionId.ComputePartitionId: widths of more than 63 bits together, where the shift count wraps around; every ID is
  rejected then (`PartitionId.AcceptsIff`).
- FlatRules.TrieRefinesList: says nothing about the order of the rules in an answer, which depends on the order of
  insertion; `Selectors.MatchNode` fixes it for a given trie.
- Reinsertions.ReinsertedMatchesSame: inserts every listed rule by appending; as a multiset, because listing walks maps.
- `Table.Join`'s rewriting of key flags after the join of the columns, and restoring table definitions.
- The cache of column mappings and the type switch on raw values in `pkg/column-mapping/column.go`.
- The limit splitter, `pkg/diff`, the filters and routers, `pkg/check` and the other wrappers: not part of this model.
