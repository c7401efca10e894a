# A verified model of Apache Paimon C++

This project models parts of Apache Paimon C++, a columnar lake format library, and of the tools in its
repository, and proves them correct in Dafny 4.11. `dafny verify dfyconfig.toml` checks all of it.

## The merge tree

A table bucket is a log-structured merge tree. A writer flushes sorted files to level 0, a background task
compacts sorted runs into higher levels, and a reader merges what is there. The model goes through all
layers, each proved on top of the one below:

- `Tournament.dfy`, `LoserTree.dfy`: the loser tree, an in-place tournament over an array of matches. It
  labels every loser and winner so that all records of one key are popped in one round without comparing
  them again. The proof follows the frontier of a partially played tournament.
- `SortMerge.dfy`, `MergeRead.dfy`: the sort-merge reader and the deduplicating merge function. `Latest`
  says what a merge read means without any of this: the latest record of every key, by increasing key.
- `IntervalPartition.dfy`, `SplitRead.dfy`: the greedy partition of files into sections and sorted runs, the
  proof that it uses the least number of runs, and the read of a split.
- `Compaction.dfy`, `UniversalCompaction.dfy`: the compaction task, and the strategy that chooses it.
- `RecordViews.dfy`, `MergeTree.dfy`: what a reader sees, and the whole tree. Flushes, compaction choices and
  finished compactions may come in any order, and flushes may come while a compaction runs. As long as no
  record comes too late, a read gives exactly the latest records of everything ever written, without the
  retracted ones.

## The include rewriter

`build_support/fix_includes.py` moves includes and forward declarations of a C++ file.

- `FileLines.dfy`, `MoveSpans.dfy`, `ReorderSpans.dfy`: lines, the spans that move as one, and the spans
  within which they may be reordered.
- `AddedLines.dfy`: where an added line goes.
- `Emission.dfy`, `SplitSpans.dfy`, `FixFile.dfy`: the loop that writes the file, and the exact condition under
  which no line is lost or doubled and all lines are in order.
- `NamespaceScans.dfy`, `EmptyBlocks.dfy`: deleting empty `#if` blocks and namespaces until nothing changes.
- `IncludeFixer.dfy`: the whole way of a file, from its classified lines to its output.
- `NamespaceNormalizer.dfy`: one-line namespace declarations as nested blocks, with the same meaning and the
  least number of opens and closes.

## Concurrency and lifetimes

- `Singleton.dfy`: double-checked locking with acquire and release atomics, as a step system over any number
  of threads. A load may read any store that its happens-before view does not rule out (section 32.4 of
  ISO/IEC 14882:2017), so the first load may read a stale null.
- `CallbackReads.dfy`, `CallbackSinks.dfy`: the Vortex callback bridge as step systems: concurrent reads that
  share a host context, and a writer behind a bounded channel.
- `StatusPool.dfy`, `ResultPool.dfy`: pools of `Status` and `Result` objects whose memory is managed by hand.
- `LanceHandles.dfy`: the Lance writer and reader handles and their error slot, panics included.

## Tools

- `CliParsing.dfy`, `ArgvCompaction.dfy`: the benchmark's option parsers and the in-place filter of argv.
- `Columns.dfy`: generated benchmark columns, their dictionaries, batches and null masks.
- `ReleaseVersions.dfy`: the version list that releases update and promote.

## Where the code does less than one expects

Each of these is proved, with the exact condition under which the code does what is expected.

- `FixFile.AddedBetween`, `FixFile.OnceIff`, `FixFile.SplitIff`: when no top-level reorder span holds an include
  any more, an added include goes to the first contentful line. If that line lies strictly inside a reorder
  span, such as a declaration below its comment, the loop writes it twice, or loses the include when the file
  ends there. The comment at `build_support/fix_includes.py:1810-1812` means to avoid this, but only looks at
  declarations before contentful code.
- `EmptyBlocks.SecondPassBreaks`, `EmptyBlocks.PassKeepsNesting`: the guard at
  `build_support/fix_includes.py:1100` does not test `deleted`, so a second pass can delete the `#endif` of a
  live `#if`. A pass keeps the nesting exactly if no stray deleted `#if` is in its way.
- `EmptyBlocks.HiddenBehind`, `EmptyBlocks.DeleteEmptyNamespaces`: a namespace that is never closed hides the
  empty namespaces behind it, and these are all that is ever left.
- `MergeTrees.LateRecordReappears`, `Views.AddedIff`, `Views.CompactedIff`: with a user-defined sequence a
  record may arrive late. Once a full compaction has dropped a newer deletion of its key, such a record becomes
  visible. The conditions speak of what was dropped; `MergeTrees.MergeTree.NewerInTime` is the form that a
  writer can test.
- `LanceHandles.TellAfterFinish`, `LanceHandles.FinishLastRun`: asking for the position does not test
  `finished`, so the backend can be asked after its finish.
- `LanceHandles.OpenStream`: a stream refused for its sizes leaves the out pointer as it was.
- `Statuses.EqualsNotTransitive`, `Statuses.EqualsIff`: `Status::Equals` takes two statuses for equal when
  their details are, whatever their codes and messages.
- `Statuses.StatusPool.MoveFrom`: a status moved to itself becomes OK.
- `Results.StatusNeedsError`: a `Result` made from an OK status claims a value that was never built.
- `MergeRead.IgnoredDeletes`: with ignored deletions a retraction still survives when it is alone.
- `Columns.TooManyEntries`, `Columns.DictionaryIsPlain`: indices are cut to 32 bits, so a string dictionary is
  right exactly while every index fits. The benchmark's own cardinalities, 10 and 1,000, never come near this
  (`Columns.BenchmarkFits`). The int32 dictionary is right whenever it is accepted.
- `ReleaseVersions.GoesBack`, `ReleaseVersions.PromotionIff`: promoting an older series breaks the order of the
  archive, and the script accepts it.
- `ArgvCompaction.CompactArgv`: without even a program name the terminating null is written one entry too far.

## How to read the model

A user key is modelled by its rank in the key comparator, a user-defined sequence by its rank in that
comparator. Readers, backends, schedulers and the host's callbacks are inputs or steps that may succeed, fail
or panic. Integers are unbounded unless a width matters, as it does in `Columns.dfy`. Fields marked `ghost`,
such as the records a tree still holds, exist only for the proofs. A few predicates are stated with a
quantifier over a marker predicate, which keeps their content out of proofs that do not ask for it.

## Model

| member | source | states |
|---|---|---|
| `MergeTrees.MergeTree.Read` | src/paimon/core/operation/merge_file_split_read.cpp:484-505 | A read returns, by increasing key, the latest record of every key in the tree without the retracted keys: every record read has the largest user sequence, and then the largest sequence number, among the records of its key. In a faithful tree, after any sequence of flushes, compaction choices and finished compactions, these are exactly the latest records of everything ever written. |
| `MergeTrees.WriteThenRead` | src/paimon/core/mergetree/compact/sort_merge_reader_with_loser_tree.cpp:48-66 | A writer whose rows carry larger sequence numbers than everything written of their keys reads them back: of these keys a read shows exactly the new rows that are not retractions, and of all other keys what was visible before. |
| `MergeTrees.NewestShown` | src/paimon/core/mergetree/compact/deduplicate_merge_function.h:40-48 | The same for what is visible, whatever was written before. |
| `MergeTrees.MergeTree.Flush` | src/paimon/core/mergetree/compact/merge_tree_compact_manager.cpp:102-108 | The file goes before all runs and its records are added to what was written, also while a compaction is under way. The tree then shows what was written exactly if what it shows of the file is newer than the retractions dropped so far, and stays faithful if it is also newer than those about to be dropped. |
| `MergeTrees.MergeTree.TriggerCompaction` | src/paimon/core/mergetree/compact/merge_tree_compact_manager.cpp:114-162 | None is chosen while one runs, and a full one is then refused. A full compaction takes every run into the highest level, and there is none exactly if there is no run or one run that is there already. Otherwise nothing happens below the trigger, too many runs always lead to a compaction, and what is taken follows from the sizes of the runs: all of them when the newer ones together are too large beside the oldest, else the first runs as long as the next one is not larger than all before it, give or take the ratio. Deletions are dropped exactly if they are not to be kept and every run takes part. |
| `MergeTrees.MergeTree.FinishCompaction` | src/paimon/core/mergetree/compact/merge_tree_compact_manager.cpp:212-224 | The compacted run takes the place of the chosen runs, below the files flushed in the meantime; nothing a reader sees changes and no level gets a second run. |
| `MergeTrees.MergeTree.NewerInTime` | src/paimon/core/mergetree/compact/merge_tree_compact_manager.cpp:102-108 | Records newer than everything written of their keys, as a writer without a user-defined sequence makes them, keep the tree faithful: the form of the condition that a writer can test. |
| `Views.AddedIff` | src/paimon/core/mergetree/levels.cpp:108-114 | However old the new records are, a reader still sees what was written exactly if none that the tree would show is older than a dropped retraction of its key. |
| `Views.CompactedIff` | src/paimon/core/mergetree/compact/merge_tree_compact_manager.cpp:149-157 | Putting the output in place of its input changes nothing a reader sees exactly if what is beside it shows nothing older than a retraction that is dropped. |
| `Views.AccountsView` | src/paimon/core/mergetree/compact/merge_tree_compact_manager.cpp:149-157 | A tree that accounts for every written record, by a newer record or a dropped retraction, shows what was written. |
| `MergeTrees.LateRecordReappears` | src/paimon/core/mergetree/compact/merge_tree_compact_manager.cpp:149-157 | A run of the tree: a deletion is flushed and dropped by a full compaction, an older record of its key is flushed, and the read shows it. |
| `MergeTrees.Select` | src/paimon/core/mergetree/compact/compact_strategy.h:40-68 | The same rules for the choice alone; a pick of one file that is where it belongs is not carried out. |
| `UniversalCompactions.CreateUnit` | src/paimon/core/mergetree/compact/universal_compaction.cpp:151-184 | The unit goes directly below the next run; where that is level 0, all further runs of level 0 and the first run above it go along, into the level of that run. All runs together go into the highest level. Every chosen run is at or below the output level and every other run above it. |
| `UniversalCompactions.PickForSizeRatio` | src/paimon/core/mergetree/compact/universal_compaction.cpp:116-135 | Runs join while the size ratio allows, and the unit for them is made exactly when forced or when more than one run joined. |
| `UniversalCompactions.RatioStops` | src/paimon/core/mergetree/compact/universal_compaction.cpp:116-135 | The runs that join are exactly those up to the first one that is larger than all runs before it, give or take the ratio. |
| `UniversalCompactions.SizesAdd` | src/paimon/core/mergetree/compact/universal_compaction.cpp:137-144 | Sizes of runs add up. |
| `UniversalCompactions.Pick` | src/paimon/core/mergetree/compact/universal_compaction.cpp:35-65 | The pick follows early full compaction, size amplification, size ratio and number of runs, in this order. Every pick is sound and takes more than one run where there are several, too many runs always give a pick, and without a pick neither the size amplification nor the size ratio asks for one. |
| `UniversalCompactions.ForcePickL0` | src/paimon/core/mergetree/compact/universal_compaction.cpp:67-80 | There is a pick exactly if level 0 holds a file, and it leaves no level-0 file behind. |
| `UniversalCompactions.NoOlderData` | src/paimon/core/mergetree/compact/merge_tree_compact_manager.cpp:149-157 | The output is at or above the highest level in use exactly when every run takes part. |
| `UniversalCompactions.ReplacedOk` | src/paimon/core/mergetree/levels.cpp:159-220 | Putting the output in place of the chosen runs never gives a level a second run. |
| `Compaction.DoCompact` | src/paimon/core/mergetree/compact/merge_tree_compact_task.cpp:38-70 | The output files form one sorted run that holds the latest record of every key of the input; when deletions are dropped, it holds exactly those that are not retractions. A large file whose key range no other file touches is not rewritten unless that is forced or, on the highest level, its deletions may have to go. |
| `Compaction.RewriteCandidate` | src/paimon/core/mergetree/compact/merge_tree_compact_task.cpp:88-109 | A lone run is upgraded file by file and everything else is rewritten; either way the key range is compacted and stays in order. |
| `Compaction.Upgrade` | src/paimon/core/mergetree/compact/merge_tree_compact_task.cpp:72-86 | A file that moves up unchanged, or is rewritten alone, is compacted. It moves up unchanged unless rewriting is forced or, on the highest level, the file holds or may hold a retraction. |
| `Compaction.RewriteCells` | src/paimon/core/mergetree/compact/merge_tree_compact_task.cpp:111-118 | Merging the sections of a stretch one after the other into rolled files compacts the stretch. |
| `Compaction.DropDeletes` | src/paimon/core/mergetree/drop_delete_reader.h:43-55 | Exactly the records that are not retractions pass, in order. |
| `Compaction.AddsAre` | src/paimon/core/mergetree/drop_delete_reader.h:43-55 | What passes has increasing keys and is exactly the records that are not retractions. |
| `Compaction.RollFiles` | src/paimon/core/io/rolling_file_writer.h:103-145 | Rolling keeps all records in order and gives files that are not empty, carry their key ranges and form one sorted run. |
| `Compaction.CompactsConcat` | src/paimon/core/mergetree/compact/merge_tree_compact_task.cpp:42-63 | Key ranges that lie apart can be compacted independently. |
| `SplitReads.ReadFiles` | src/paimon/core/operation/merge_file_split_read.cpp:484-505 | Reading any files section by section through loser trees gives the latest record of every key, by increasing key. |
| `SplitReads.ReadIsUnique` | src/paimon/core/operation/merge_file_split_read.cpp:484-505 | The result depends only on the records, not on the files, sections and runs that hold them. |
| `IntervalPartitions.SortSorts` | src/paimon/core/mergetree/compact/interval_partition.cpp:35-44 | The constructor sorts the files by their key ranges and keeps each of them. |
| `IntervalPartitions.SortStable` | src/paimon/core/mergetree/compact/interval_partition.cpp:35-44 | Files of equal ranges keep their order. |
| `IntervalPartitions.Place` | src/paimon/core/mergetree/compact/interval_partition.cpp:90-102 | A file joins the run that ends first or opens a run, and a run is opened only when the ends of all runs and the file share a key. |
| `IntervalPartitions.PartitionSection` | src/paimon/core/mergetree/compact/interval_partition.cpp:71-110 | A section is laid out in sorted runs, all its files kept, in the order of their ends, with as many runs as there are files that share one key. |
| `IntervalPartitions.Partition` | src/paimon/core/mergetree/compact/interval_partition.cpp:47-69 | The sections hold all files, lie apart in key order, and each is laid out in the least number of sorted runs. |
| `IntervalPartitions.MinimumRuns` | src/paimon/core/mergetree/compact/interval_partition.h:30-52 | No layout of the files in sorted runs has fewer runs than any section got. |
| `IntervalPartitions.SectionsWhole` | src/paimon/core/mergetree/compact/interval_partition.h:34-52 | No key separates the files of a section, so no section can be cut further. |
| `LoserTrees.LoserTree.constructor` | src/paimon/core/mergetree/compact/loser_tree.cpp:25-37 | A new tree holds all records of its readers and has handed out none. |
| `LoserTrees.LoserTree.AdvanceIfAvailable` | src/paimon/core/mergetree/compact/loser_tree.h:118-146 | An input offers its next record across empty batches, or nothing at its end, and keeps the rest. |
| `LoserTrees.LoserTree.AdjustWithSameWinnerKey` | src/paimon/core/mergetree/compact/loser_tree.cpp:140-164 | A match against a winner of the round's key labels loser and winner rightly, keeps the order and marks where the winner first met its key. |
| `LoserTrees.LoserTree.AdjustWithNewWinnerKey` | src/paimon/core/mergetree/compact/loser_tree.cpp:166-209 | The same for a winner that arrives with a later key. |
| `LoserTrees.LoserTree.Adjust` | src/paimon/core/mergetree/compact/loser_tree.cpp:93-138 | From an arrival or a pop the climb ends in a settled tournament with its champion at the root, or parked where an input is still missing, and offers never change. |
| `LoserTrees.LoserTree.JumpFrom` | src/paimon/core/mergetree/compact/loser_tree.cpp:93-138 | The popped champion changes places with the deepest unpopped record of its key, and the climb goes on from there. |
| `LoserTrees.LoserTree.InitializeIfNeeded` | src/paimon/core/mergetree/compact/loser_tree.cpp:49-64 | Loading the inputs from the last to the first gives a settled tournament that holds all records. |
| `LoserTrees.LoserTree.PeekWinner` | src/paimon/core/mergetree/compact/loser_tree.cpp:88-91 | The record peeked at is the least of all records left, and there is none exactly when the round is over or nothing is left. |
| `LoserTrees.LoserTree.PopWinner` | src/paimon/core/mergetree/compact/loser_tree.cpp:76-86 | A pop takes the least record left, every pop of a round has its key, and the round closes exactly when all other records have larger keys. |
| `LoserTrees.LoserTree.AdjustForNextLoop` | src/paimon/core/mergetree/compact/loser_tree.cpp:66-74 | Between rounds every popped input reads on, nothing is lost, and the next round starts fresh. |
| `Tournament.ChampionAhead` | src/paimon/core/mergetree/compact/loser_tree.h:68-79 | In a settled tournament the root is ahead of every input. |
| `Tournament.PlayMatch` | src/paimon/core/mergetree/compact/loser_tree.cpp:93-138 | A match at the frontier settles its node and moves the frontier up by one. |
| `Tournament.MatchKeepsFirstSame` | src/paimon/core/mergetree/compact/loser_tree.h:111-115 | Every match keeps the marks of the deepest match against the own key. |
| `Tournament.TakeBackTo` | src/paimon/core/mergetree/compact/loser_tree.cpp:93-138 | The champion's wins can be taken back down to any node it won, leaving the rest of the tournament settled. |
| `Tournament.ClimbPopped` | src/paimon/core/mergetree/compact/loser_tree.cpp:93-138 | A popped winner with nothing of its key left below is the champion without playing. |
| `SortMergeReaders.Reducer.Merge` | src/paimon/core/mergetree/compact/deduplicate_merge_function.h:40-48 | Adding a record keeps the invariant that the held record is the last one that counts. |
| `SortMergeReaders.Reducer.Add` | src/paimon/core/mergetree/compact/reducer_merge_function_wrapper.h:52-63 | The wrapper holds what merging all added records gives. |
| `SortMergeReaders.Reducer.GetResult` | src/paimon/core/mergetree/compact/reducer_merge_function_wrapper.h:66-75 | The result is the merge of the added records, one record being its own merge. |
| `SortMergeReaders.SortMergeReader.TakeRest` | src/paimon/core/mergetree/compact/sort_merge_reader_with_loser_tree.h:72-79 | All records of the round's key go to the merge function, in sequence order. |
| `SortMergeReaders.SortMergeReader.NextGroup` | src/paimon/core/mergetree/compact/sort_merge_reader_with_loser_tree.cpp:71-86 | One turn takes exactly the records of the least key. |
| `SortMergeReaders.SortMergeReader.HasNext` | src/paimon/core/mergetree/compact/sort_merge_reader_with_loser_tree.cpp:71-86 | The next merged record is found, keys whose merge yields nothing are skipped, and nothing is lost. |
| `SortMergeReaders.SortMergeReader.ReadAll` | src/paimon/core/mergetree/compact/sort_merge_reader_with_loser_tree.h:86-91 | Draining the reader merges every key group once, in key order. |
| `MergeRead.MergeRuns` | src/paimon/core/mergetree/compact/sort_merge_reader_with_loser_tree.cpp:28-86 | Merging sorted inputs yields key groups that hold exactly the input records. With deletions kept it gives the latest record of every key; with deletions ignored, for every key with an addition, the addition with the largest user sequence and sequence number. |
| `MergeRead.GroupsGiveAdds` | src/paimon/core/mergetree/compact/deduplicate_merge_function.h:40-48 | Merging the key groups with deletions ignored gives, for every key with an addition, its latest addition. |
| `MergeRead.IgnoredDeletes` | src/paimon/core/mergetree/compact/reducer_merge_function_wrapper.h:52-75 | With ignored deletions a retraction survives exactly if it is the only record of its key. |
| `Latest.LatestUnique` | src/paimon/core/mergetree/compact/deduplicate_merge_function.h:30-31 | Lists of the latest records per key are equal. |
| `IncludeFixer.FixIncludes` | build_support/fix_includes.py:2045-2218 | From the lines as they are read to the output: lines of deleted move spans are never written, all code and all other includes and declarations stay, and each of them and each added line is written exactly once, exactly if no added line goes to a place strictly inside a reorder span. Then the output is in order, as below. Without duplicates no empty ifdef is left, and in a file without namespaces and ifdefs nothing else is deleted but the blank lines that are given. |
| `IncludeFixer.GoneOrphans` | build_support/fix_includes.py:2045-2048 | Deleting whole move spans leaves no comment without its include. |
| `FixFile.FixFileLines` | build_support/fix_includes.py:2126-2218 | From the deletions to the output, with the reorder spans computed anew and the places chosen: deleted lines are never written, and everything else exactly once, exactly if no place chosen for an added line splits a reorder span of the file. Then every line stands in the reorder span of its move span or at its own place, every added line in the span chosen for it, these places are in the order of the file, and within a reorder span the ranks decide. |
| `FixFile.OnceIff` | build_support/fix_includes.py:2183-2218 | Every live line and every added line is written exactly once, exactly if no added line goes to a place strictly inside a reorder span. |
| `FixFile.SafeOrder` | build_support/fix_includes.py:2164-2216 | Without a split the sorted list is written in this order. |
| `FixFile.SplitBreaks` | build_support/fix_includes.py:2190-2216 | Otherwise the line at that place is written twice, or at the end of the file the added line is lost. |
| `FixFile.SplitIff` | build_support/fix_includes.py:1784-1818 | This happens exactly if no top-level reorder span holds an include, the first contentful line comes before every declaration that counts, and it lies strictly inside a reorder span. |
| `FixFile.AddedBetween` | build_support/fix_includes.py:1743-1818 | A family of files where it does: an include added to a file with a comment and a commented declaration goes between that comment and the declaration. |
| `FixFile.NeverLost` | build_support/fix_includes.py:1820-1821 | A line that goes to the end of the file is never lost, because then no live reorder span ends there. |
| `FixFile.DecorateFile` | build_support/fix_includes.py:1906-1944 | Every move span that still has its include or declaration is decorated with its reorder span and its live lines. |
| `AddedLines.ToplevelSpans` | build_support/fix_includes.py:1314-1362 | Exactly the reorder spans without a line in an ifdef, a namespace or a class, in order. |
| `AddedLines.IfdefIff` | build_support/fix_includes.py:1314-1325 | A line is in an ifdef exactly if it is live and more live #if than #endif lines stand up to it; the header guard is no #if. |
| `AddedLines.OpenedIsInside` | build_support/fix_includes.py:1331-1349 | While no namespace is closed, a live line is inside one exactly if one was opened up to it. |
| `AddedLines.ClosedIsOutside` | build_support/fix_includes.py:1327-1349 | Behind the only namespace so far a line is inside exactly if that namespace holds code. |
| `AddedLines.FirstReorderSpanWith` | build_support/fix_includes.py:1729-1821 | By position in the list of top-level spans: the first span with a line of the own rank; if there is none, the last span with the largest lower rank; if there is none, the first span with the smallest higher rank below declarations; else the first span of a declaration that counts, if it begins at or before the first contentful line, or that line. When the last choice is made, only declarations are left, as the source asserts. |
| `AddedLines.ContentfulIs` | build_support/fix_includes.py:1735-1744 | Declarations count up to the end of a span such that all spans before it touch and the next one does not. |
| `AddedLines.StopIs` | build_support/fix_includes.py:1788-1809 | The scan for the first contentful line passes over deleted and blank lines, guards with the line behind them, and comments before any guard, and ends at a line that is none of these. |
| `AddedLines.FallsIff` | build_support/fix_includes.py:1757-1818 | The place is a line of its own exactly if no top-level reorder span holds an include and no declaration that counts comes before it. |
| `AddedLines.SplitFamily` | build_support/fix_includes.py:1743-1754 | A top-level reorder span that is split holds nothing but declarations behind contentful code. |
| `AddedLines.NotAtEnd` | build_support/fix_includes.py:1788-1821 | Nothing goes to the end of a file that ends with a live reorder span, header guards included. |
| `SplitSpans.Doubled` | build_support/fix_includes.py:2183-2216 | The loop goes back to a place inside a reorder span that it has passed and copies its lines again. |
| `SplitSpans.Dropped` | build_support/fix_includes.py:2183-2216 | At the end of the file it stops before it comes to such a place. |
| `Emission.Emit` | build_support/fix_includes.py:2183-2218 | For any list of spans that ends with the sentinel the loop writes the specified output; a span is left whenever a line is, and the loop ends. |
| `Emission.EmitCount` | build_support/fix_includes.py:2183-2218 | How often every line appears: copied lines outside the reorder spans once, the lines of emitted decorated spans as often as they occur there. |
| `Emission.EmitInOrder` | build_support/fix_includes.py:2178-2216 | Copied lines keep file order, the content of a reorder span stands between the lines before and behind it, and decorated spans are written in their sorted order. |
| `Emission.GroupInOrder` | build_support/fix_includes.py:2194-2203 | Within a reorder span the sorted order is kept. |
| `Emission.LostExactly` | build_support/fix_includes.py:2164-2166 | A decorated span is not emitted exactly if it is at the end of the file and another span ends there. |
| `MoveSpans.LineNumberStartingPrecedingComments` | build_support/fix_includes.py:826-853 | The first of the comments directly before a line; the line itself when there are none or they reach the top of the file. |
| `MoveSpans.CalculateMoveSpans` | build_support/fix_includes.py:856-885 | Exactly the includes and the given declarations become spans, each from the first of the comments directly before it, or from its own first line when there are none or they reach the top of the file. |
| `MoveSpans.MoveSpansWhole` | build_support/fix_includes.py:859-866 | Every line of a move span carries that span, and every include and declaration has one. |
| `ReorderSpans.CalculateReorderSpans` | build_support/fix_includes.py:906-962 | Neighbouring move spans carry the same reorder span exactly if neither holds a live barrier and every line between them is deleted or blank; every line of such a group carries it, and other lines keep their value. |
| `ReorderSpans.SameGroupIff` | build_support/fix_includes.py:942-962 | Two move spans share a reorder span exactly if every step between them is linked; otherwise the spans lie apart in order. |
| `ReorderSpans.GroupContent` | build_support/fix_includes.py:909-920 | A reorder span holds only move spans and blank or deleted lines. |
| `ReorderSpans.BarrierAlone` | build_support/fix_includes.py:922-927 | A barrier include is alone in its reorder span. |
| `ReorderSpans.Coarsens` | build_support/fix_includes.py:2126-2128 | After more deletions every old reorder span lies within one new one. |
| `ReorderSpans.Recomputed` | build_support/fix_includes.py:2126-2128 | Recomputing leaves no stale reorder span on any line. |
| `EmptyBlocks.DeleteEmptyIfdefs` | build_support/fix_includes.py:1097-1128 | Every line from an #if or header guard to a live #endif goes if all lines between them are deleted, #else, comments or blank. Nothing is counted exactly if there is no such pair, and each counted deletion removes a live closing line. |
| `EmptyBlocks.OnlyEmptyIfdefs` | build_support/fix_includes.py:1108-1122 | What goes is a line of such a pair, or a comment or blank line that leads to one. |
| `EmptyBlocks.LeadGoes` | build_support/fix_includes.py:1114-1121 | With an empty ifdef go the comments directly before it, unless they reach the top of the file, and the blank lines before these. |
| `EmptyBlocks.DeleteEmptyNamespaces` | build_support/fix_includes.py:1011-1072 | Every namespace that holds nothing but whole empty namespaces, comments and blank lines goes, unless nothing but namespace lines, comments and blank lines follows to the end of the file. One pass deletes exactly the outermost empty namespaces that are not behind an unclosed one; each counted deletion removes a live closing line, and nothing is deleted exactly if every empty namespace is behind an unclosed one. |
| `EmptyBlocks.NamespaceLeadGoes` | build_support/fix_includes.py:1054-1066 | With it go the comments and blank lines before it. |
| `NamespaceScans.WholeScan` | build_support/fix_includes.py:1018-1070 | The scan passes over a whole empty namespace, nested and Allman ones included, and outside of any other it ends there. |
| `NamespaceScans.FindNamespaceEnd` | build_support/fix_includes.py:1035-1071 | The loop gives the specified end of a namespace, or that it is not empty, or that it is never closed. |
| `EmptyBlocks.DeleteEmptyBlocks` | build_support/fix_includes.py:2050-2054 | The loop ends, spares includes, declarations and code, and leaves no #if and live #endif with only deleted lines, #else, comments and blank lines between them, and an empty namespace only where nothing but namespaces, comments and blank lines follows. A file without namespaces and ifdefs stays as it is. |
| `EmptyBlocks.ClearSpares` | build_support/fix_includes.py:1036-1070 | A pass deletes only namespace lines, comments and blank lines. |
| `NamespaceScans.ScanInside` | build_support/fix_includes.py:1036-1070 | A namespace within an empty one is empty itself, so skipping over a deleted one misses nothing. |
| `EmptyBlocks.HiddenBehind` | build_support/fix_includes.py:1036-1070 | An unclosed namespace does hide an empty one. |
| `EmptyBlocks.PassKeepsNesting` | build_support/fix_includes.py:1097-1128 | One pass keeps the live ifdefs well nested exactly if no deleted #if stands alone before a live #endif. |
| `EmptyBlocks.FirstPassKeepsNesting` | build_support/fix_includes.py:1097-1128 | A pass over a file without deleted #if lines keeps the nesting. |
| `EmptyBlocks.SecondPassBreaks` | build_support/fix_includes.py:1100-1102 | Repeating the pass can delete the #endif of an outer, live #if. |
| `NamespaceNormalizer.CommonPrefixLength` | build_support/fix_includes.py:1975-1981 | The length of the longest common prefix. |
| `NamespaceNormalizer.Normalize` | build_support/fix_includes.py:2018-2040 | It fails on the first malformed line; otherwise the output reads back as the same declarations in the same namespaces, and other lines as they are, with no namespace left open, and no such output has fewer opens or closes. |
| `NamespaceNormalizer.AtLeastNeeded` | build_support/fix_includes.py:2021-2028 | Any well-bracketed text with the same meaning needs at least so many opens and closes. |
| `Singletons.StepKeepsInv` | include/paimon/factories/singleton.h:62-77 | Every step of every thread keeps the invariant of memory, mutex and threads. |
| `Singletons.OneInstance` | include/paimon/factories/singleton.h:53-58 | In every interleaving all calls return the same non-null object, one object is created, and its whole construction happens before every return. |
| `Singletons.StepsEnd` | include/paimon/factories/singleton.h:62-77 | A call ends after a bounded number of its own steps. |
| `Singletons.NoDeadlock` | include/paimon/factories/singleton.h:62-77 | While a call is under way, some call can go on. |
| `CallbackReads.CountKept` | crates/vortex_callback_io/callback_io.rs:117-137 | The reference count is the number of holders after every step. |
| `CallbackReads.ReachesHost` | crates/vortex_callback_io/callback_io.rs:177-205 | A read that is run calls the host with its offset and length exactly if it is not empty and inside the file. |
| `CallbackReads.ReadsArrive` | crates/vortex_callback_io/callback_io.rs:166-214 | So in every run such a read has reached the host once it is run. |
| `CallbackReads.ReleasedLast` | crates/vortex_callback_io/callback_io.rs:166-214 | Every read callback gets a non-empty range inside the file, the release comes last and at most once, and every read that started has ended by then. |
| `CallbackReads.ReleasedExactlyOnce` | crates/vortex_callback_io/callback_io.rs:217-244 | Once everything is dropped, the context has been released exactly once, also after rejected opens and cancelled reads. |
| `CallbackReads.NeverStuck` | crates/vortex_callback_io/callback_io.rs:166-244 | Until then some step remains that adds no work. |
| `CallbackReads.WorkEnds` | crates/vortex_callback_io/callback_io.rs:166-244 | Every such step brings the release closer. |
| `CallbackSinks.InOrder` | crates/vortex_callback_io/callback_io.rs:355-367 | The writer receives the pushed arrays in order and without gaps, and the channel bounds what is under way. |
| `CallbackSinks.PushIs` | crates/vortex_callback_io/callback_io.rs:404-427 | A push takes the array in exactly if its type is right and the task still runs, and otherwise changes nothing. |
| `CallbackSinks.RefusalFails` | crates/vortex_callback_io/callback_io.rs:296-328 | A write, flush or footer that the host refuses ends the task with a failure. |
| `CallbackSinks.CloseTells` | crates/vortex_callback_io/callback_io.rs:440-461 | A close reports success exactly if the task ended well. |
| `CallbackSinks.CloseDelivers` | crates/vortex_callback_io/callback_io.rs:440-461 | A close that reports success has delivered every pushed array, and after the footer there is nothing but flushes and the release. |
| `CallbackSinks.ReleasedOnceAndLast` | crates/vortex_callback_io/callback_io.rs:330-374 | The release is the last callback and runs exactly once when the task is gone. |
| `CallbackSinks.ClosingEnds` | crates/vortex_callback_io/callback_io.rs:440-475 | After a close or an abort the background task can always go on to its end. |
| `Statuses.StatusPool.Execute` | include/paimon/status.h:342-418 | Every operation on a status keeps the heap sound and does to the values what it means, moving an object to itself included. |
| `Statuses.StatusPool.ExecuteAll` | include/paimon/status.h:95-114 | The same for any sequence of operations. |
| `Statuses.StatusPool.CopyFrom` | src/paimon/common/utils/status.cpp:56-63 | Copying from another object frees the old state once and shares nothing. |
| `Statuses.StatusPool.MoveFrom` | include/paimon/status.h:342-346 | The state changes hands and OK stays behind; an object moved to itself becomes OK. |
| `Statuses.OthersStay` | include/paimon/status.h:342-418 | An operation changes no object but those that it assigns, moves from or destroys. |
| `Statuses.MoveConserves` | include/paimon/status.h:359-366 | A move neither loses nor doubles an error. |
| `Statuses.MoveAssignConserves` | include/paimon/status.h:342-346 | A move assignment loses the error of its target and nothing else. |
| `Statuses.PointerTest` | include/paimon/status.h:350-357 | The pointers are equal exactly for one object and for two OK objects. |
| `Statuses.NothingLeaks` | include/paimon/status.h:330-337 | Memory is allocated exactly while a living object holds an error. |
| `Statuses.FoldIsFirstError` | include/paimon/status.h:390-418 | Folding over any list gives the first error, with OK as identity. |
| `Statuses.EqualsIff` | include/paimon/status.h:368-385 | Equality compares code, message and detail, except that equal details behind different pointers hide other differences. |
| `Statuses.EqualsNotTransitive` | include/paimon/status.h:368-385 | So equality is not transitive. |
| `Results.ResultPool.Execute` | include/paimon/result.h:36-146 | Every operation keeps a value alive exactly in a living OK result and the counts of built and ended values right. |
| `Results.ResultPool.ExecuteAll` | include/paimon/result.h:36-146 | The same for any sequence of operations. |
| `Results.ResultPool.Assign` | include/paimon/result.h:107-146 | Assigning builds, assigns or ends the value as the two statuses ask, and nothing when an object is assigned to itself. |
| `Results.ResultPool.ConstructFrom` | include/paimon/result.h:69-85 | Copying and moving build the value only from an OK result, and copy the status in both. |
| `Results.MovedValue` | include/paimon/result.h:69-85 | A moved value is in the new result alone, and a moved error in both. |
| `Results.AssignedValue` | include/paimon/result.h:107-146 | The same for assignments; a result assigned to itself stays as it is. |
| `Results.LivingAreOk` | include/paimon/result.h:235-250 | The number of living values is the number of living OK results. |
| `Results.AllEnded` | include/paimon/result.h:36-41 | When all results are destroyed, every value built has been ended. |
| `Results.StatusNeedsError` | include/paimon/result.h:62-64 | Constructing from a status is sound exactly if the status is an error. |
| `LanceHandles.ErrorSlot.Fail` | crates/lance_ffi/src/error.rs:34-41 | The stored message is never empty, holds no NUL, and keeps every other character. |
| `LanceHandles.WriterHandle.Write` | crates/lance_ffi/src/writer.rs:113-175 | It returns 0 exactly if no argument is null, the handle is neither finished nor failed, and the import and the backend succeed. The backend sees the batch exactly if all but the last hold, and only then does its refusal fail the handle. The slot is empty exactly if the call returned 0. |
| `LanceHandles.WriterHandle.TellPosition` | crates/lance_ffi/src/writer.rs:182-211 | It returns 0 exactly if no argument is null, the handle has not failed and the backend succeeds, and never changes the flags; the position is written exactly then. |
| `LanceHandles.WriterHandle.FinishFile` | crates/lance_ffi/src/writer.rs:218-253 | It returns 0 exactly if no argument is null, the handle is neither finished nor failed and the backend succeeds, and finishes the handle exactly then; a refusal of the backend fails it. |
| `LanceHandles.WriterHandle.Free` | crates/lance_ffi/src/writer.rs:260-274 | Freeing ends the handle, and tells the backend to abort exactly if its log holds no good finish. |
| `LanceHandles.AbortIff` | crates/lance_ffi/src/writer.rs:260-274 | Over a whole life of a handle the backend sees an abort exactly if it never finished, once and last. |
| `LanceHandles.UseHandle` | crates/lance_ffi/src/writer.rs:113-274 | A whole life of a handle, opened, used in any way and freed, gives the specified codes and backend log. |
| `LanceHandles.WriterHandle.MakeCalls` | crates/lance_ffi/src/writer.rs:113-253 | Over any sequence of calls the return codes are as specified. |
| `LanceHandles.RunIs` | crates/lance_ffi/src/writer.rs:113-253 | What the backend sees in any run, in terms of the calls alone: every well-formed call up to the first finish or refused write, and after a good finish the positions asked for. |
| `LanceHandles.WritesAre` | crates/lance_ffi/src/writer.rs:123-173 | So the backend is given exactly the well-formed batches up to the first write that it refuses, or up to the first finish. |
| `LanceHandles.SucceedsIff` | crates/lance_ffi/src/writer.rs:113-253 | Which calls of a run succeed, in terms of the calls before them alone. |
| `LanceHandles.BackendOrder` | crates/lance_ffi/src/writer.rs:123-173 | The backend sees writes and positions, then at most one finish, then only positions, and nothing after a write or finish that failed or panicked. |
| `LanceHandles.FinishLastRun` | crates/lance_ffi/src/writer.rs:191-209 | The backend sees nothing after its finish exactly if nobody asks a finished handle for its position. |
| `LanceHandles.TellAfterFinish` | crates/lance_ffi/src/writer.rs:191-209 | Asking for the position after a finish does reach the backend. |
| `LanceHandles.FailedStays` | crates/lance_ffi/src/writer.rs:127-129 | A failed handle never reaches the backend again and reports an error on every call. |
| `LanceHandles.FailsIff` | crates/lance_ffi/src/writer.rs:160-172 | In every run a handle has failed exactly if the backend log holds a write or finish that was not accepted. |
| `LanceHandles.FinishedIff` | crates/lance_ffi/src/writer.rs:242-249 | A handle is finished exactly if the backend finished. |
| `LanceHandles.BatchReader.Next` | crates/lance_ffi/src/reader.rs:264-315 | A failure or panic poisons the reader, the end of the file does not, and outputs are written only on success. |
| `LanceHandles.BatchReader.ReadAll` | crates/lance_ffi/src/reader.rs:264-315 | From the first failure on every read returns -1, and before it every read returns 0. |
| `LanceHandles.OpenHandle` | crates/lance_ffi/src/writer.rs:44-105 | The out pointer is cleared first and set exactly on success, and the slot is empty exactly if the call returned 0. |
| `LanceHandles.OpenStream` | crates/lance_ffi/src/reader.rs:181-257 | The same, except that a call refused for its sizes leaves the out pointer as it was. |
| `CliParsing.TrimIs` | benchmark/cli_option_parsing.h:44-51 | Trimming removes whitespace at both ends and nothing else. |
| `CliParsing.TrimTakes` | benchmark/cli_option_parsing.h:44-51 | What is taken away is blanks, tabs and line ends, and none of them is left at the ends. |
| `CliParsing.ParseCommaSeparatedColumns` | benchmark/cli_option_parsing.h:53-75 | The index-driven loop is split, then trim, with the first problem reported. |
| `CliParsing.ColumnsIff` | benchmark/cli_option_parsing.h:53-75 | Columns are accepted exactly if there is text and no segment between commas is blank, and otherwise the error says which. |
| `CliParsing.ParseDelimitedOptions` | benchmark/cli_option_parsing.h:77-112 | The loop with a token buffer is split, then parse each setting. |
| `CliParsing.SettingAt` | benchmark/cli_option_parsing.h:97-107 | A setting is split at its first colon, and both parts are trimmed; if one of them is blank it is refused. |
| `CliParsing.SettingWithout` | benchmark/cli_option_parsing.h:92-100 | A segment without a colon is refused, as empty or as no key and value. |
| `CliParsing.JoinColumns` | benchmark/benchmark_suite.cpp:480-489 | The columns joined by commas. |
| `CliParsing.ParseJoined` | benchmark/benchmark_suite.cpp:480-489 | Parsing undoes joining for clean columns. |
| `CliParsing.ParsedAreClean` | benchmark/cli_option_parsing.h:53-75 | A successful parse yields trimmed, non-empty columns without commas. |
| `CliParsing.ParsePrintParse` | benchmark/cli_option_parsing.h:53-75 | Parsing what was parsed and joined changes nothing. |
| `CliParsing.ParsePrinted` | benchmark/cli_option_parsing.h:77-112 | Parsing undoes printing for clean settings. |
| `CliParsing.OptionsPrintParse` | benchmark/cli_option_parsing.h:77-112 | A successful parse yields clean settings, and printing and parsing them changes nothing. |
| `ArgvCompaction.ParseOptionArg` | benchmark/cli_option_parsing.h:114-179 | One option is taken inline, with the next argument, without its value as an error, or not at all. |
| `ArgvCompaction.CompactArgv` | benchmark/benchmark_suite.cpp:78-118 | On success argv holds its first entry, the arguments that are no options in their order, and null; the options and every error are as specified, and the null stands within the first argc + 1 entries exactly if argc is not 0. |
| `ArgvCompaction.HeadOption` | benchmark/benchmark_suite.cpp:86-112 | What each of the four options does at the head of the arguments: it sets its own field, and extra options are added to those before. |
| `ArgvCompaction.OneOption` | benchmark/benchmark_suite.cpp:86-112 | One option alone sets its own field and leaves the others at their defaults, with nothing left over. |
| `ArgvCompaction.ExtrasAdd` | benchmark/cli_option_parsing.h:155-179 | Any number of extra options add up in order. |
| `ArgvCompaction.ForeignStay` | benchmark/benchmark_suite.cpp:112-115 | Arguments that are no options are all left over, in order. |
| `ArgvCompaction.NoValue` | benchmark/cli_option_parsing.h:125-134 | An option at the end without its value is an error. |
| `ArgvCompaction.PairAnywhere` | benchmark/cli_option_parsing.h:34-42 | Any option and its value may be written as one argument with the same options and remainder. |
| `ArgvCompaction.ActualNamesOk` | benchmark/benchmark_suite.cpp:86-107 | The four option names differ and hold no equals sign. |
| `Columns.MakeStringColumn` | benchmark/parquet_format_benchmark.cpp:233-244 | Row i holds the label of (offset + i) modulo the cardinality. |
| `Columns.MakeInt32Column` | benchmark/parquet_format_benchmark.cpp:249-259 | Row i holds seven times (offset + i) modulo the cardinality, cut to 32 bits. |
| `Columns.MakeDictionaryColumn` | benchmark/parquet_format_benchmark.cpp:265-278 | The indices, refused when one is outside the dictionary. |
| `Columns.DictionaryIsPlain` | benchmark/parquet_format_benchmark.cpp:282-287 | The dictionary column is the plain column exactly if every index fits 32 bits. |
| `Columns.RotatedIsPlain` | benchmark/parquet_format_benchmark.cpp:299-310 | The rotated dictionary decodes to the plain column, at every offset and row count, exactly if every index fits 32 bits. |
| `Columns.DictionaryMovesOn` | benchmark/parquet_format_benchmark.cpp:302-309 | From one full batch to the next the dictionary moves on by one entry, beginning with the plain alphabet. |
| `Columns.MakeChangingDictionaryStringColumn` | benchmark/parquet_format_benchmark.cpp:299-310 | The same for the column as it is made, with its own rotation. |
| `Columns.TooManyEntries` | benchmark/parquet_format_benchmark.cpp:265-287 | With one more entry than 2^31 the dictionary column is not the plain one. |
| `Columns.BenchmarkFits` | benchmark/parquet_format_benchmark.cpp:114-117 | The cardinalities of the benchmark always fit. |
| `Columns.SmallIndicesFit` | benchmark/parquet_format_benchmark.cpp:265-278 | Up to 2^31 distinct values every index fits. |
| `Columns.MakeDictionaryInt32Column` | benchmark/parquet_format_benchmark.cpp:315-320 | The int32 dictionary is accepted exactly if no index becomes negative, and then decodes to the flat column. |
| `Columns.DictionaryIsFlat` | benchmark/parquet_format_benchmark.cpp:312-320 | The same for the indices and values alone, indices that wrap around included. |
| `Columns.MakeBatches` | benchmark/parquet_format_benchmark.cpp:542-549 | Fresh batches are what the maker builds for consecutive rows, the first failure is passed on, and their number is the ceiling division. |
| `Columns.MakeChangingBatches` | benchmark/parquet_format_benchmark.cpp:299-310 | Batches of any size, each with its own rotated dictionary, decode together to the plain column. |
| `Columns.MakeFlatBatches` | benchmark/parquet_format_benchmark.cpp:315-320 | The same for the int32 dictionary and the flat column. |
| `Columns.CutsMakeUp` | benchmark/parquet_format_benchmark.cpp:542-549 | Batches that hold what their rows are to hold make up the column, whatever their size. |
| `Columns.MakeReusedBatches` | benchmark/parquet_format_benchmark.cpp:517-541 | One shared batch is refused exactly if the last batch would be short, and otherwise the file holds the column exactly if its values repeat with the size of the batch. |
| `Columns.WithNulls` | benchmark/parquet_format_benchmark.cpp:411-436 | The mask and the null count, and no mask without nulls. |
| `Columns.NullsAreUnset` | benchmark/parquet_format_benchmark.cpp:424-434 | The null count is the number of unset bits. |
| `Columns.ExactDensity` | benchmark/parquet_format_benchmark.cpp:408-410 | On whole windows exactly the asked percentage is null, wherever they begin. |
| `Columns.MaskSplits` | benchmark/parquet_format_benchmark.cpp:543-548 | The null pattern does not depend on how a file is cut into batches. |
| `ReleaseVersions.VersionFiles.PromoteStable` | scripts/releasing/bump_version.py:197-202 | The new version becomes stable, and the old one is archived exactly if its series differs. |
| `ReleaseVersions.VersionFiles.Update` | scripts/releasing/bump_version.py:165-194 | An update is accepted exactly if the files agree on the current version, where the documentation may still show the stable one, and the version list has its shape. Then both files hold the next version, and unless only the development version changes, the current one becomes stable and an old one of another series is archived. A refused update changes nothing. |
| `ReleaseVersions.VersionFiles.Promote` | scripts/releasing/bump_version.py:205-214 | A promotion is accepted exactly if both files hold the version and the list has its shape, and changes only the list, in the same way. |
| `ReleaseVersions.StaysConsistent` | scripts/releasing/bump_version.py:134-162 | Every accepted command leaves files that pass the check for the resulting version. |
| `ReleaseVersions.RunStaysConsistent` | scripts/releasing/bump_version.py:134-214 | Over any series of commands the files stay consistent. |
| `ReleaseVersions.PromoteAgain` | scripts/releasing/bump_version.py:197-214 | Promoting twice is promoting once. |
| `ReleaseVersions.PromotionIff` | scripts/releasing/bump_version.py:197-202 | A promotion keeps the archive strictly descending exactly if the series does not go back. |
| `ReleaseVersions.GoesBack` | scripts/releasing/bump_version.py:165-214 | Two accepted commands after which the archive is not in order. |
| `ReleaseVersions.RunsTell` | scripts/releasing/bump_version.py:197-214 | Over any series of commands whose promotions never go back, the archive stays strictly descending below stable and holds the last version of every earlier series, once. |

## Left out

- The min-heap sort-merge reader, and the partial-update, aggregate and first-row merge functions: the deduplicating merge over the loser tree is the harder path.
- Deletion vectors, lookup and changelog rewriters, and the rewrite of single files of the highest level.
- Error returns of readers and of file I/O in the merge tree: the model reads what the files hold.
- Compaction.RollFiles: rolls output files by their number of records instead of their bytes.
- UniversalCompactions.PickForSizeRatio: the size ratio is a constant and exact; the off-peak ratio, the rounding of `double` and the overflow of 64-bit sizes are not modelled.
- UniversalCompactions.Pick: the decision of the early full compaction, which reads a clock, is an input.
- MergeTrees.MergeTree.TriggerCompaction: the rewrite of single files of the highest level and deletion vectors are not modelled.
- MergeTrees.MergeTree.Flush: the new file goes before all runs; the comparator that orders level-0 files by their sequence numbers is not modelled.
- MergeTrees.MergeTree.FinishCompaction: the size of the output is an input, and cancelled or failed tasks are not modelled.
- Regular expressions and the classification of lines in the Python tools: lines come classified, and versions parsed.
- FixFile.FixFileLines: which declarations belong into which namespace, the sort key behind the spans and where blank lines are inserted are inputs, because they depend on the text.
- IncludeFixer.FixIncludes: which move spans and blank lines are deleted is an input, and the added lines go to the top level. The namespace normaliser, which rewrites the text of the emitted declarations, is proved apart from it.
- EmptyBlocks.DeleteEmptyNamespaces: does not say when the braces of the remaining lines stay balanced; a line that closes more than the namespace is deleted whole.
- CallbackReads: offsets near 2^63 and the Vortex reader itself.
- CallbackSinks.CloseDelivers: that Vortex writes the footer only when the stream of arrays has ended is an assumption; the race between an abort and the footer inside Vortex is not modelled, an abort drops the task at any step.
- Results.ResultPool.Assign: the converting move assignment between different value types is not modelled.
- Memory exhaustion, C++ exceptions from value constructors, and recursive calls of `GetInstance`.
- JSON and text matching in `scripts/releasing/bump_version.py`, and the other scripts of the repository.
- Arrow, Parquet, Lance, Vortex and Tokio internals, metrics and timing.
- Interfaces without a body to model, such as the catalog and commit headers; and schemas, snapshots, manifests, indexes and file formats, which are separate subsystems.
