# HLTConfigData and the MillePede job database, in Dafny

This project models two pieces of CMSSW.

**`HLTConfigData` (HLTrigger/HLTcore).** It builds the trigger-menu tables of one
process from the process's parameter tree, the `ParameterSet`:

- `extract()` reads the process name, the global tag and the table name;
- it reads the trigger paths and their module labels, and the modules with `saveTags`;
- it builds the name → index maps;
- it reads the L1 seeds of each path (legacy `HLTLevel1GTSeed` and stage-2 `HLTL1TSeed`);
- it reads the streams and datasets (sorted), the prescale table and its two value views;
- it classifies the L1 trigger type.

After `extract()`, the accessors answer bounds-checked queries, where `.at()` throws
`std::out_of_range`. `moduleType`, `moduleEDMType`, `modulePSet` and `saveTags` go
through a lazily filled cache of module information (`moduleInfoFor`).

**`jobdatabase` (Alignment/MillePedeAlignmentAlgorithm, `mpslib`).** It reads and writes
`mps.db`, the job database of a MillePede alignment campaign:

- the file has seventeen header lines, then one line of thirteen colon-separated fields per job;
- it counts the mille jobs;
- it picks the batch class for mille or pede jobs;
- it splices file names into a configuration as `readFiles.extend([...])` blocks of at most 255 names.

Modules:

- `Wrappers`: `Option`, `Result` and `Outcome`.
- `ParameterSet`: the parameter tree as a map from names to typed values. Typed getters fail with `MissingParameter` or `WrongParameterType` where the C++ throws.
- `Sequences`: index maps, distinctness, and `std::sort` on strings as a sort into lexicographic order.
- `HLTExtraction`: every stage of `extract()` as functions on the tree, with their lemmas.
- `HLTConfig`: the class `HLTConfigData`, with its fields, the module-info cache, `Extract` and the accessors. Each method is proved against the functions of `HLTExtraction`.
- `PyText`: the Python string operations the database code relies on: `strip`, `rstrip('\n')`, `split`, `int()` and `str()` of an integer.
- `MpsDb`: the class `JobDatabase` with `ReadDb`, `ReadJobs` and `WriteDb`, and the file format, `get_class` and the `mps_splice` blocks.

The default prescale set deserves a note. One might expect the first label equal to `lvl1DefaultLabel` to win when labels repeat. The loop at HLTConfigData.cc:255-260 keeps overwriting `set`, so the last equal label wins. The model follows the code (`HLTExtraction.DefaultSetIsLastMatch`).

## Model

| member | source | states |
|---|---|---|
| ParameterSet.Lookup | HLTrigger/HLTcore/src/HLTConfigData.cc:92-93 | a typed lookup succeeds exactly when the name exists with that type; otherwise it fails with a missing-parameter or a wrong-type fault, whichever applies |
| ParameterSet.NamesOfKind | HLTrigger/HLTcore/src/HLTConfigData.cc:208 | `getParameterNamesForType` yields each name of the requested type exactly once and no other name |
| Sequences.LastIndexMapFinds | HLTrigger/HLTcore/src/HLTConfigData.cc:149-155 | the map built by assigning `index[s[i]] = i` for i = 0, 1, … holds exactly the elements of `s`, each mapped to its last position |
| Sequences.BuildIndex | HLTrigger/HLTcore/src/HLTConfigData.cc:149-155 | the filling loop produces that last-position map |
| Sequences.LastIndexOfDistinct | HLTrigger/HLTcore/src/HLTConfigData.cc:149-155 | on a list without duplicates, the map sends every element back to its own position |
| Sequences.DistinctIffSingleOccurrences | HLTrigger/HLTcore/src/HLTConfigData.cc:208 | no duplicates ⇔ every element occurs at most once in the multiset |
| Sequences.DistinctPermutation | HLTrigger/HLTcore/src/HLTConfigData.cc:209 | a permutation of a duplicate-free list is duplicate-free |
| Sequences.Insert | HLTrigger/HLTcore/src/HLTConfigData.cc:209 | inserting into a sorted list keeps it sorted and adds exactly that element |
| Sequences.SortStrings | HLTrigger/HLTcore/src/HLTConfigData.cc:209 | `std::sort` result: sorted, a permutation of the input |
| Sequences.SortDistinct | HLTrigger/HLTcore/src/HLTConfigData.cc:208-209 | sorting duplicate-free names gives a strictly increasing list of the same names |
| Sequences.SortedPermutationUnique | HLTrigger/HLTcore/src/HLTConfigData.cc:209 | two sorted permutations of the same list are equal, so the sort result does not depend on the algorithm |
| Sequences.MapEach | HLTrigger/HLTcore/src/HLTConfigData.cc:212-216 | the per-name loop yields one result per name, in order |
| HLTExtraction.CanonicalModuleName | HLTrigger/HLTcore/src/HLTConfigData.cc:500-505 | an ignored module "-m" is looked up as "m"; any other label is its own name |
| HLTExtraction.ResolveModule | HLTrigger/HLTcore/src/HLTConfigData.cc:513-527 | a missing module resolves to the unknown module (dummy tree, empty class and type); a module sub-tree resolves to that sub-tree; the lookup throws only when the name holds something other than a sub-tree |
| HLTExtraction.KnownModuleHasParameters | HLTrigger/HLTcore/src/HLTConfigData.cc:517-518 | a module with a class name has a non-empty parameter set, so it is never taken for the dummy one |
| HLTExtraction.ModuleInfoCacheKeyMismatch | HLTrigger/HLTcore/src/HLTConfigData.cc:507-529 | the cache as written can answer a label with another module's information (see Findings) |
| HLTExtraction.SaveTagsOfFilters | HLTrigger/HLTcore/src/HLTConfigData.cc:132-145 | a path's saveTags list is the subsequence of its modules whose `saveTags` flag is true, each such module as often as it occurs on the path and no other; it fails only when a flag lookup throws |
| HLTExtraction.ModuleLabelsAligned | HLTrigger/HLTcore/src/HLTConfigData.cc:124-131 | module labels are found for at most as many paths as there are; for exactly as many only when every path has its list, and then entry i is path i's bit-position list |
| HLTExtraction.FindModuleLabels | HLTrigger/HLTcore/src/HLTConfigData.cc:124-131 | the loop collects the module-label lists of the paths that have one, in path order |
| HLTExtraction.CollectAppend | HLTrigger/HLTcore/src/HLTConfigData.cc:158-203 | collecting over a concatenation is collecting each part and appending; a failure in the first part wins |
| HLTExtraction.CollectFailureSticks | HLTrigger/HLTcore/src/HLTConfigData.cc:158-203 | once a module's lookup throws, the whole path fails with that fault |
| HLTExtraction.CollectSkipsSilent | HLTrigger/HLTcore/src/HLTConfigData.cc:158-203 | a module that contributes nothing can be dropped without changing the result |
| HLTExtraction.DisabledModuleAddsNoSeed | HLTrigger/HLTcore/src/HLTConfigData.cc:164-191 | an ignored "-m" module adds no GT seed and no L1T seed, wherever it sits on the path |
| HLTExtraction.EmulatedL1TSeedIgnored | HLTrigger/HLTcore/src/HLTConfigData.cc:191-199 | an `HLTL1TSeed` reading `hltGtStage2ObjectMap` adds no L1T seed |
| HLTExtraction.SeedsInModuleOrder | HLTrigger/HLTcore/src/HLTConfigData.cc:158-203 | the seeds of a path are those of its modules in module order |
| HLTExtraction.GlobalTagOf | HLTrigger/HLTcore/src/HLTConfigData.cc:96-105 | the `globaltag` of the `GlobalTag` sub-tree, or, without a `GlobalTag` entry, of the `PoolDBESSource@GlobalTag` sub-tree, "" when the sub-tree has none; the wrong-type fault when the entry consulted is not a sub-tree; "" when neither entry exists |
| HLTExtraction.GlobalTagPrecedence | HLTrigger/HLTcore/src/HLTConfigData.cc:99-102 | when `GlobalTag` exists, whatever `PoolDBESSource@GlobalTag` holds does not matter |
| HLTExtraction.At | HLTrigger/HLTcore/src/HLTConfigData.cc:449 | `.at(i)` returns element i exactly when i is in range, and otherwise throws out-of-range |
| HLTExtraction.Find | HLTrigger/HLTcore/src/HLTConfigData.cc:450-457 | the index lookup returns `size()` exactly for unknown names, and otherwise the last position holding the name |
| HLTExtraction.FindInverse | HLTrigger/HLTcore/src/HLTConfigData.cc:149-150 | on duplicate-free names, looking up the name at position i returns i |
| HLTExtraction.IndexPaths | HLTrigger/HLTcore/src/HLTConfigData.cc:147-156 | the index loop builds the trigger-name map and, per path, the module-label map, each giving last positions |
| HLTExtraction.StrictlySortedSameElements | HLTrigger/HLTcore/src/HLTConfigData.cc:208-209 | two strictly increasing lists with the same elements are equal |
| HLTExtraction.GroupsDetermined | HLTrigger/HLTcore/src/HLTConfigData.cc:206-216 | the stream (dataset) names, index and contents are fully determined by the tree |
| HLTExtraction.SortedGroups | HLTrigger/HLTcore/src/HLTConfigData.cc:206-216 | the stream (dataset) loop gives sorted distinct names, each name's index is its position, and each content list is the sorted vector of that name |
| HLTExtraction.SortedContents | HLTrigger/HLTcore/src/HLTConfigData.cc:212-216 | content list i is name i's vector, sorted |
| HLTExtraction.IndexOfSorted | HLTrigger/HLTcore/src/HLTConfigData.cc:212-213 | for sorted distinct names, the index map sends every name to its own position |
| HLTExtraction.DefaultSetIsLastMatch | HLTrigger/HLTcore/src/HLTConfigData.cc:255-260 | the default set is the last label equal to the default label, or 0 when no label matches |
| HLTExtraction.PrescaleRow | HLTrigger/HLTcore/src/HLTConfigData.cc:266-267 | a row reads exactly when it has `prescales` and `pathName`, giving both; `prescales`, the right operand of the assignment, is read first, so its fault wins when both are missing |
| HLTExtraction.PrescalesReadFirst | HLTrigger/HLTcore/src/HLTConfigData.cc:266-267 | an empty row fails on the missing `prescales` |
| HLTExtraction.RowsTableSucceeds | HLTrigger/HLTcore/src/HLTConfigData.cc:262-269 | the table builds exactly when every row reads |
| HLTExtraction.RowsTableKeys | HLTrigger/HLTcore/src/HLTConfigData.cc:261-269 | the table's keys are exactly the path names of the rows |
| HLTExtraction.RowsTableLastRowWins | HLTrigger/HLTcore/src/HLTConfigData.cc:265-268 | for a path named by several rows, the last row's prescales win |
| HLTExtraction.RowsFailureSticks | HLTrigger/HLTcore/src/HLTConfigData.cc:265-268 | once a row fails to read, later rows do not change the outcome |
| HLTExtraction.PrescaleServiceFirst | HLTrigger/HLTcore/src/HLTConfigData.cc:239-242 | when `PrescaleService` is a sub-tree, `PrescaleTable` is ignored |
| HLTExtraction.PrescaleTableShape | HLTrigger/HLTcore/src/HLTConfigData.cc:243-274 | without a prescale sub-tree, or with no set labels, the table is empty; otherwise it has those labels, the last label equal to the default (0 when none is), and a table whose keys are exactly the rows' path names, each holding the prescales of the last row naming it |
| HLTExtraction.ExtractPrescaleTable | HLTrigger/HLTcore/src/HLTConfigData.cc:235-275 | the prescale block computes exactly that table, or the fault it throws, each row reading `prescales` before `pathName` |
| HLTExtraction.PrescaleViews | HLTrigger/HLTcore/src/HLTConfigData.cc:277-283 | the double and fractional views have the table's keys and row lengths, each cell equal to the unsigned value, and the two views agree |
| HLTExtraction.ModuleTypesAligned | HLTrigger/HLTcore/src/HLTConfigData.cc:288-291 | the classes read for `@all_modules` line up one-to-one with the module names |
| HLTExtraction.CountPositiveIffPresent | HLTrigger/HLTcore/src/HLTConfigData.cc:290-296 | a counter is non-zero exactly when some module has a class of that kind |
| HLTExtraction.L1TType | HLTrigger/HLTcore/src/HLTConfigData.cc:298-310 | the type is 0 when both kinds or neither kind is present, 1 for legacy/stage-1 only, 2 for stage-2 only |
| HLTExtraction.L1TTypeOfModules | HLTrigger/HLTcore/src/HLTConfigData.cc:285-310 | read in terms of the module classes: type 1 ⇔ some stage-1 class and no stage-2 class, and so on |
| HLTExtraction.L1TTypeProductWraps | HLTrigger/HLTcore/src/HLTConfigData.cc:301 | the 32-bit product test as written classifies 65536 + 65536 modules as type 1 (see Findings) |
| HLTExtraction.L1TTypeAsWrittenAgrees | HLTrigger/HLTcore/src/HLTConfigData.cc:298-310 | without overflow, the code as written and the corrected classification agree |
| HLTExtraction.ByPath | HLTrigger/HLTcore/src/HLTConfigData.cc:159-160 | a per-path table that builds has one entry per path |
| HLTExtraction.ByPathRows | HLTrigger/HLTcore/src/HLTConfigData.cc:159-203 | a per-path table builds exactly when every path's row does, and its entry i is path i's row |
| HLTExtraction.ByPathFirstFailure | HLTrigger/HLTcore/src/HLTConfigData.cc:132-203 | the first path whose row throws decides the fault of the whole table |
| HLTExtraction.PathsSucceedOnEveryPath | HLTrigger/HLTcore/src/HLTConfigData.cc:124-203 | the path stage succeeds exactly when the global tag reads, every path has its module list, and every saveTags and seed lookup on the paths reads |
| HLTExtraction.EmptyTreeExtracts | HLTrigger/HLTcore/src/HLTConfigData.cc:115-275 | an empty tree extracts without error, to no paths and an empty prescale table |
| HLTExtraction.ExtractionFaultIffFails | HLTrigger/HLTcore/src/HLTConfigData.cc:96-310 | the first-exception function names a fault exactly when extraction does not succeed |
| HLTConfig.HLTConfigData.Init | HLTrigger/HLTcore/src/HLTConfigData.cc:59-80 | a new object holds the tree and has every table empty |
| HLTConfig.HLTConfigData.Create | HLTrigger/HLTcore/src/HLTConfigData.cc:59-84 | with an invalid tree id nothing is extracted; otherwise construction succeeds exactly when extraction does, and then all tables are those of the tree; a failure carries the exception of the first stage that throws |
| HLTConfig.HLTConfigData.ModuleInfoFor | HLTrigger/HLTcore/src/HLTConfigData.cc:507-529 | returns the resolution of the canonical name and caches it under that name, leaving the cache unchanged on a throw |
| HLTConfig.HLTConfigData.ModuleType | HLTrigger/HLTcore/src/HLTConfigData.cc:492 | the module's class name, "" for an unknown module |
| HLTConfig.HLTConfigData.ModuleEDMType | HLTrigger/HLTcore/src/HLTConfigData.cc:494-496 | the module's EDM type, "" for an unknown module |
| HLTConfig.HLTConfigData.ModulePSet | HLTrigger/HLTcore/src/HLTConfigData.cc:500-506 | the sub-tree of the module named without its "-" marker, the empty dummy set for an unknown module |
| HLTConfig.HLTConfigData.SaveTags | HLTrigger/HLTcore/src/HLTConfigData.cc:531-537 | the module's `saveTags` flag, false when it is absent |
| HLTConfig.HLTConfigData.SaveTagsOfPath | HLTrigger/HLTcore/src/HLTConfigData.cc:139-143 | the modules of one path with `saveTags` set, in path order, or the fault of the first flag lookup that throws |
| HLTConfig.HLTConfigData.SaveTagsTable | HLTrigger/HLTcore/src/HLTConfigData.cc:132-145 | the saveTags lists of all paths; the fault of the first path whose flag lookup throws, otherwise out-of-range when fewer module lists than paths were found |
| HLTConfig.HLTConfigData.GTSeedAt | HLTrigger/HLTcore/src/HLTConfigData.cc:164-176 | one module's legacy seed (`L1TechTriggerSeeding`, `L1SeedsLogicalExpression`), or none |
| HLTConfig.HLTConfigData.GTSeedsTable | HLTrigger/HLTcore/src/HLTConfigData.cc:158-178 | the legacy seeds of every path, or the fault of the first lookup that throws |
| HLTConfig.HLTConfigData.L1TSeedAt | HLTrigger/HLTcore/src/HLTConfigData.cc:186-201 | one module's stage-2 seed expression, or none |
| HLTConfig.HLTConfigData.L1TSeedsTable | HLTrigger/HLTcore/src/HLTConfigData.cc:180-203 | the stage-2 seeds of every path, or the fault of the first lookup that throws |
| HLTConfig.HLTConfigData.ClassifyL1T | HLTrigger/HLTcore/src/HLTConfigData.cc:285-310 | the L1T type computed from the classes of `@all_modules`, or the fault of the first module whose class cannot be read |
| HLTConfig.HLTConfigData.ExtractPathTables | HLTrigger/HLTcore/src/HLTConfigData.cc:115-203 | the path stage yields the tables the path functions define, or fails exactly when they do, with the fault of the first loop that throws: saveTags, then the missing module list, then legacy seeds, then stage-2 seeds |
| HLTConfig.HLTConfigData.StoreProvenance | HLTrigger/HLTcore/src/HLTConfigData.cc:91-113 | stores the process name, global tag and table name and nothing else |
| HLTConfig.HLTConfigData.StorePathLabels | HLTrigger/HLTcore/src/HLTConfigData.cc:115-157 | stores the trigger names, module labels, saveTags lists and trigger index, and nothing else |
| HLTConfig.HLTConfigData.StorePathSeeds | HLTrigger/HLTcore/src/HLTConfigData.cc:148-203 | stores the module index and both seed tables, and nothing else |
| HLTConfig.HLTConfigData.StoreStreams | HLTrigger/HLTcore/src/HLTConfigData.cc:205-217 | stores the stream names, index and contents, and nothing else |
| HLTConfig.HLTConfigData.StoreDatasets | HLTrigger/HLTcore/src/HLTConfigData.cc:219-231 | stores the dataset names, index and contents, and nothing else |
| HLTConfig.HLTConfigData.StorePrescalesAndL1TType | HLTrigger/HLTcore/src/HLTConfigData.cc:233-310 | stores the prescale table, its two views and the L1T type, and nothing else |
| HLTConfig.HLTConfigData.Extract | HLTrigger/HLTcore/src/HLTConfigData.cc:86-316 | extraction passes exactly when no stage throws, and then every table holds what its stage computes from the tree and the index invariants hold; otherwise it fails with the exception of the first stage that throws, in source order |
| HLTConfig.HLTConfigData.TriggerIndex | HLTrigger/HLTcore/src/HLTConfigData.cc:450-457 | returns `size()` exactly for an unknown trigger, and otherwise its last position |
| HLTConfig.HLTConfigData.TriggerName | HLTrigger/HLTcore/src/HLTConfigData.cc:449 | the name at an index in range, and out-of-range otherwise |
| HLTConfig.HLTConfigData.PathSize | HLTrigger/HLTcore/src/HLTConfigData.cc:444 | the number of modules on a path in range, and out-of-range otherwise |
| HLTConfig.HLTConfigData.PathSizeByName | HLTrigger/HLTcore/src/HLTConfigData.cc:445 | a named path's module count, and out-of-range for an unknown name |
| HLTConfig.HLTConfigData.ModuleLabels | HLTrigger/HLTcore/src/HLTConfigData.cc:459-461 | a path's module labels, and out-of-range otherwise |
| HLTConfig.HLTConfigData.ModuleLabelsByName | HLTrigger/HLTcore/src/HLTConfigData.cc:462-464 | a named path's module labels, and out-of-range for an unknown name |
| HLTConfig.HLTConfigData.SaveTagsModules | HLTrigger/HLTcore/src/HLTConfigData.cc:466-468 | a path's saveTags modules, and out-of-range otherwise |
| HLTConfig.HLTConfigData.SaveTagsModulesByName | HLTrigger/HLTcore/src/HLTConfigData.cc:469-471 | a named path's saveTags modules, and out-of-range for an unknown name |
| HLTConfig.HLTConfigData.ModuleLabel | HLTrigger/HLTcore/src/HLTConfigData.cc:473-475 | the label at a position when both indices are in range, and out-of-range otherwise |
| HLTConfig.HLTConfigData.ModuleLabelByName | HLTrigger/HLTcore/src/HLTConfigData.cc:476-478 | the label at a position of the named path when the name is a path and the position is in range, and out-of-range otherwise |
| HLTConfig.HLTConfigData.ModuleIndex | HLTrigger/HLTcore/src/HLTConfigData.cc:480-487 | a module's last position on the path, the path's size for a module not on it, and out-of-range for a bad path |
| HLTConfig.HLTConfigData.ModuleIndexByName | HLTrigger/HLTcore/src/HLTConfigData.cc:488-490 | for a named path, the last position of the label, or the path size exactly when the label is absent; out-of-range for an unknown name |
| HLTConfig.HLTConfigData.HltL1GTSeeds | HLTrigger/HLTcore/src/HLTConfigData.cc:549-551 | a path's legacy seeds, and out-of-range otherwise |
| HLTConfig.HLTConfigData.HltL1GTSeedsByName | HLTrigger/HLTcore/src/HLTConfigData.cc:545-547 | the legacy seeds of the last path with that name, and out-of-range for an unknown name |
| HLTConfig.HLTConfigData.HltL1TSeeds | HLTrigger/HLTcore/src/HLTConfigData.cc:559-561 | a path's stage-2 seeds, and out-of-range otherwise |
| HLTConfig.HLTConfigData.HltL1TSeedsByName | HLTrigger/HLTcore/src/HLTConfigData.cc:555-557 | the stage-2 seeds of the last path with that name, and out-of-range for an unknown name |
| HLTConfig.HLTConfigData.StreamName | HLTrigger/HLTcore/src/HLTConfigData.cc:566 | the stream name at an index in range, and out-of-range otherwise |
| HLTConfig.HLTConfigData.StreamIndex | HLTrigger/HLTcore/src/HLTConfigData.cc:568-575 | the number of streams exactly for an unknown stream, and otherwise the position holding it |
| HLTConfig.HLTConfigData.StreamContent | HLTrigger/HLTcore/src/HLTConfigData.cc:579-581 | a stream's sorted dataset list, and out-of-range otherwise |
| HLTConfig.HLTConfigData.StreamContentByName | HLTrigger/HLTcore/src/HLTConfigData.cc:583-585 | the content of the stream with that name, and out-of-range for an unknown name |
| HLTConfig.HLTConfigData.DatasetName | HLTrigger/HLTcore/src/HLTConfigData.cc:590 | the dataset name at an index in range, and out-of-range otherwise |
| HLTConfig.HLTConfigData.DatasetIndex | HLTrigger/HLTcore/src/HLTConfigData.cc:592-599 | the number of datasets exactly for an unknown dataset, and otherwise the position holding it |
| HLTConfig.HLTConfigData.DatasetContent | HLTrigger/HLTcore/src/HLTConfigData.cc:603-605 | a dataset's sorted path list, and out-of-range otherwise |
| HLTConfig.HLTConfigData.DatasetContentByName | HLTrigger/HLTcore/src/HLTConfigData.cc:607-609 | the content of the dataset with that name, and out-of-range for an unknown name |
| HLTConfig.HLTConfigData.PrescaleSize | HLTrigger/HLTcore/src/HLTConfigData.cc:611 | the number of prescale sets on any object: 0 on one never extracted, and 0 when the tree has no prescale sub-tree |
| HLTConfig.HLTConfigData.TriggerIndexRoundTrip | HLTrigger/HLTcore/src/HLTConfigData.cc:449-457 | `triggerName(triggerIndex(n)) == n` for every known name, and `triggerIndex(triggerName(i)) == i` when the names are distinct |
| HLTConfig.HLTConfigData.StreamAndDatasetIndexInverse | HLTrigger/HLTcore/src/HLTConfigData.cc:568-599 | `streamIndex(streamName(i)) == i` and `datasetIndex(datasetName(k)) == k` |
| HLTConfig.HLTConfigData.ModuleIndexRoundTrip | HLTrigger/HLTcore/src/HLTConfigData.cc:473-487 | for the label m at a position on a path, `moduleLabel(t, moduleIndex(t, m)) == m`; and when the path's labels are distinct, that index is the position itself |
| HLTConfig.HLTConfigData.SaveTagsModulesOfPath | HLTrigger/HLTcore/src/HLTConfigData.cc:132-145 | after extraction, each path's saveTags list is a subsequence of its modules holding every module with `saveTags` true as often as it occurs on the path, and no other |
| HLTConfig.HLTConfigData.L1TTypeOfProcess | HLTrigger/HLTcore/src/HLTConfigData.cc:285-310 | after extraction, the stored L1T type is 1 exactly for a process with stage-1 but no stage-2 modules, 2 for the reverse, 0 otherwise |
| PyText.Strip | Alignment/MillePedeAlignmentAlgorithm/python/mpslib/Mpslibclass.py:79 | `strip()` leaves no whitespace at either end, and is empty exactly for all-whitespace text |
| PyText.StripPadded | Alignment/MillePedeAlignmentAlgorithm/python/mpslib/Mpslibclass.py:107 | stripping whitespace padding gives back the trimmed text inside |
| PyText.StripIdempotent | Alignment/MillePedeAlignmentAlgorithm/python/mpslib/Mpslibclass.py:310 | stripping twice is stripping once |
| PyText.RStripChar | Alignment/MillePedeAlignmentAlgorithm/python/mpslib/Mpslibclass.py:80 | `rstrip(c)` keeps a prefix that does not end in `c` and drops only `c`s |
| PyText.RStripNewline | Alignment/MillePedeAlignmentAlgorithm/python/mpslib/Mpslibclass.py:104 | `rstrip('\n')` undoes appending one newline to text without one |
| PyText.Split | Alignment/MillePedeAlignmentAlgorithm/python/mpslib/Mpslibclass.py:105 | `split(sep)` yields at least one part |
| PyText.SplitParts | Alignment/MillePedeAlignmentAlgorithm/python/mpslib/Mpslibclass.py:105 | `split(sep)` yields one part more than there are separators, none of which holds the separator |
| PyText.JoinSplit | Alignment/MillePedeAlignmentAlgorithm/python/mpslib/Mpslibclass.py:105 | joining the parts of `split(sep)` with `sep` gives back the text |
| PyText.SplitJoin | Alignment/MillePedeAlignmentAlgorithm/python/mpslib/Mpslibclass.py:240-253 | splitting a join of separator-free parts gives back the parts |
| PyText.ParseDecimal | Alignment/MillePedeAlignmentAlgorithm/python/mpslib/Mpslibclass.py:88 | `int()` of `str(n)`, padded with whitespace, is n |
| PyText.DecimalTrimmed | Alignment/MillePedeAlignmentAlgorithm/python/mpslib/Mpslibclass.py:236 | `str(n)` is digits after an optional minus sign, with no whitespace |
| PyText.DecimalPlain | Alignment/MillePedeAlignmentAlgorithm/python/mpslib/Mpslibclass.py:240 | `str(n)` holds no colon and no whitespace |
| PyText.ContainsAt | Alignment/MillePedeAlignmentAlgorithm/python/mpslib/Mpslibclass.py:290 | `sub in s` ⇔ `sub` occurs at some position of `s` |
| MpsDb.ReadLine | Alignment/MillePedeAlignmentAlgorithm/python/mpslib/Mpslibclass.py:79-95 | `readline()` past the end of the file returns "" |
| MpsDb.Int | Alignment/MillePedeAlignmentAlgorithm/python/mpslib/Mpslibclass.py:88-92 | `int(line)` succeeds exactly on a padded integer literal, and raises `ValueError` otherwise |
| MpsDb.JobLinesOf | Alignment/MillePedeAlignmentAlgorithm/python/mpslib/Mpslibclass.py:97-102 | the job lines are what follows the seventeen header lines |
| MpsDb.FieldErrorInReadingOrder | Alignment/MillePedeAlignmentAlgorithm/python/mpslib/Mpslibclass.py:105-118 | the exception of a bad line is that of the first field read in order: `ValueError` for a bad integer field, `IndexError` for a missing field |
| MpsDb.ReadJobLinesSucceeds | Alignment/MillePedeAlignmentAlgorithm/python/mpslib/Mpslibclass.py:102-118 | the parse loop completes when every non-blank line reads |
| MpsDb.ReadJobLinesRows | Alignment/MillePedeAlignmentAlgorithm/python/mpslib/Mpslibclass.py:102-118 | a completed loop yields one row per non-blank line, in file order, blank lines skipped |
| MpsDb.ReadJobLinesFailureSticks | Alignment/MillePedeAlignmentAlgorithm/python/mpslib/Mpslibclass.py:102-118 | the first line that raises ends the loop with its exception; later lines do not matter |
| MpsDb.RowsReadAtFailure | Alignment/MillePedeAlignmentAlgorithm/python/mpslib/Mpslibclass.py:102-118 | the rows kept when a line raises are exactly those read before it |
| MpsDb.MilleCount | Alignment/MillePedeAlignmentAlgorithm/python/mpslib/Mpslibclass.py:120-124 | the mille-job count is at most the number of jobs |
| MpsDb.MilleCountPositions | Alignment/MillePedeAlignmentAlgorithm/python/mpslib/Mpslibclass.py:120-124 | the count is the number of job directories not starting with "jobm" |
| MpsDb.Dirs | Alignment/MillePedeAlignmentAlgorithm/python/mpslib/Mpslibclass.py:107 | the `JOBDIR` list holds each row's directory, in order |
| MpsDb.UpdatedHeader | Alignment/MillePedeAlignmentAlgorithm/python/mpslib/Mpslibclass.py:214-223 | writing sets the schema header, the update time and its human form, and the three spares to "-- unused --"; the elapsed time is the time since the last update, or 0 when the last update time is 0; the ten other header values are kept |
| MpsDb.FormatHeader | Alignment/MillePedeAlignmentAlgorithm/python/mpslib/Mpslibclass.py:230-236 | the header takes seventeen lines |
| MpsDb.JobFields | Alignment/MillePedeAlignmentAlgorithm/python/mpslib/Mpslibclass.py:240-253 | a job line has thirteen fields |
| MpsDb.FormatJobLines | Alignment/MillePedeAlignmentAlgorithm/python/mpslib/Mpslibclass.py:239-253 | one line per job |
| MpsDb.FormatJobLinesAt | Alignment/MillePedeAlignmentAlgorithm/python/mpslib/Mpslibclass.py:239-241 | line i is job i's line, numbered i + 1 |
| MpsDb.Renumbered | Alignment/MillePedeAlignmentAlgorithm/python/mpslib/Mpslibclass.py:241 | the jobs read back are the jobs written, with job i numbered i + 1 |
| MpsDb.FormatJobLineFields | Alignment/MillePedeAlignmentAlgorithm/python/mpslib/Mpslibclass.py:105 | splitting a written job line at ':' gives back its thirteen fields |
| MpsDb.JobFieldInts | Alignment/MillePedeAlignmentAlgorithm/python/mpslib/Mpslibclass.py:106-114 | the number, try count, run time, event count and increment read back by `int()` |
| MpsDb.ReadJobFields | Alignment/MillePedeAlignmentAlgorithm/python/mpslib/Mpslibclass.py:106-118 | the fields written for a storable job read back as that job with the new number |
| MpsDb.FormatJobLineNotBlank | Alignment/MillePedeAlignmentAlgorithm/python/mpslib/Mpslibclass.py:103 | a written job line is never skipped as blank |
| MpsDb.ParseFormatJobLine | Alignment/MillePedeAlignmentAlgorithm/python/mpslib/Mpslibclass.py:102-118 | a written job line parses back to its job |
| MpsDb.ParseFormatJobLines | Alignment/MillePedeAlignmentAlgorithm/python/mpslib/Mpslibclass.py:102-118 | the written job lines parse back to the jobs, renumbered from 1 |
| MpsDb.ParseFormatHeader | Alignment/MillePedeAlignmentAlgorithm/python/mpslib/Mpslibclass.py:79-95 | the written header reads back as the same header values |
| MpsDb.FormatDb | Alignment/MillePedeAlignmentAlgorithm/python/mpslib/Mpslibclass.py:228-253 | the file has seventeen header lines plus one line per job |
| MpsDb.ReadWriteRoundTrip | Alignment/MillePedeAlignmentAlgorithm/python/mpslib/Mpslibclass.py:213-253 | `read_db` of a written file gives back the header and the jobs, renumbered |
| MpsDb.WriteThenRead | Alignment/MillePedeAlignmentAlgorithm/python/mpslib/Mpslibclass.py:213-254 | what `write_db` writes, `read_db` reads back, including the new update and elapsed times, whatever the replaced header values were |
| MpsDb.GetClass | Alignment/MillePedeAlignmentAlgorithm/python/mpslib/Mpslibclass.py:259-273 | succeeds exactly for a class with at most one ':' and the argument "mille" or "pede", and returns a class without ':'; otherwise exits |
| MpsDb.GetClassSingle | Alignment/MillePedeAlignmentAlgorithm/python/mpslib/Mpslibclass.py:264-268 | a single class serves both mille and pede jobs |
| MpsDb.GetClassPair | Alignment/MillePedeAlignmentAlgorithm/python/mpslib/Mpslibclass.py:264-270 | "m:p" gives m for mille jobs and p for pede jobs |
| MpsDb.GetClassTooMany | Alignment/MillePedeAlignmentAlgorithm/python/mpslib/Mpslibclass.py:260-263 | three or more classes exit whatever the argument |
| MpsDb.FileNamesOf | Alignment/MillePedeAlignmentAlgorithm/python/mpslib/Mpslibclass.py:286-291 | no file name holds a newline; the names joined by newlines are the stripped modifier text, one name per line, or its text after the first line when that line names `CastorPool=` |
| MpsDb.BlankModifierOneName | Alignment/MillePedeAlignmentAlgorithm/python/mpslib/Mpslibclass.py:286-291 | blank modifier text gives the single empty name |
| MpsDb.BlockEnd | Alignment/MillePedeAlignmentAlgorithm/python/mpslib/Mpslibclass.py:308-309 | a block never reaches past the last name |
| MpsDb.Entries | Alignment/MillePedeAlignmentAlgorithm/python/mpslib/Mpslibclass.py:310 | one entry per file name |
| MpsDb.EntriesAt | Alignment/MillePedeAlignmentAlgorithm/python/mpslib/Mpslibclass.py:310 | entry k is file name k, stripped |
| MpsDb.BlocksPartition | Alignment/MillePedeAlignmentAlgorithm/python/mpslib/Mpslibclass.py:301-309 | there are ceil(n / 255) blocks; block j starts at j * 255 and holds between 1 and 255 names; every block but the last is full, and the last ends at the last name |
| MpsDb.EntriesTextShape | Alignment/MillePedeAlignmentAlgorithm/python/mpslib/Mpslibclass.py:311-314 | a block's entry text ends with its last name quoted and followed by the closing "'])" |
| MpsDb.ClosesBlock | Alignment/MillePedeAlignmentAlgorithm/python/mpslib/Mpslibclass.py:311 | the closing test `i == 254 or last file` holds exactly at a block's last name |
| MpsDb.InsertBlockOf | Alignment/MillePedeAlignmentAlgorithm/python/mpslib/Mpslibclass.py:306-315 | the inner loop builds block j: the opening, then its names quoted, the last one closing the list |
| MpsDb.InsertBlocks | Alignment/MillePedeAlignmentAlgorithm/python/mpslib/Mpslibclass.py:300-315 | the outer loop builds ceil(n / 255) blocks, block j being that text |
| MpsDb.SpliceBlocks | Alignment/MillePedeAlignmentAlgorithm/python/mpslib/Mpslibclass.py:286-315 | the blocks built from the modifier text are the blocks of its file names |
| MpsDb.WriteJobLines | Alignment/MillePedeAlignmentAlgorithm/python/mpslib/Mpslibclass.py:239-253 | the write loop produces the formatted job lines |
| MpsDb.JobLists.Rows | Alignment/MillePedeAlignmentAlgorithm/python/mpslib/Mpslibclass.py:52-53 | the thirteen parallel lists read as one row per job |
| MpsDb.JobLists.Append | Alignment/MillePedeAlignmentAlgorithm/python/mpslib/Mpslibclass.py:106-118 | appending one field to each list appends one row and keeps the lists aligned |
| MpsDb.JobDatabase.constructor | Alignment/MillePedeAlignmentAlgorithm/python/mpslib/Mpslibclass.py:52-58 | a new database has empty lists and texts, and -1 for its numbers |
| MpsDb.JobDatabase.ReadDb | Alignment/MillePedeAlignmentAlgorithm/python/mpslib/Mpslibclass.py:63-126 | the header values are stored one at a time up to the first `int()` that raises, which then raises with the rows unchanged; otherwise the header is the parsed one and the rows read are appended, up to the first line that raises; on success `nJobs` counts the mille jobs |
| MpsDb.HeaderReadComplete | Alignment/MillePedeAlignmentAlgorithm/python/mpslib/Mpslibclass.py:79-95 | a header that reads replaces every value with the parsed one |
| MpsDb.HeaderReadPartial | Alignment/MillePedeAlignmentAlgorithm/python/mpslib/Mpslibclass.py:79-95 | the nine text lines before the first `int()` are always stored; a failing header never stores the last four values, and one failing at line 10 stores nothing from line 10 on |
| MpsDb.JobDatabase.ReadJobs | Alignment/MillePedeAlignmentAlgorithm/python/mpslib/Mpslibclass.py:97-124 | the parse loop appends the rows it reads and sets `nJobs` to the mille count, or to the rows read when a line raises |
| MpsDb.JobDatabase.WriteDb | Alignment/MillePedeAlignmentAlgorithm/python/mpslib/Mpslibclass.py:213-254 | the header is updated as `UpdatedHeader` says and the file is the header lines followed by the job lines |

## Left out

- Files, `os.system` (the `mps.db~` backup) and `sys.exit` messages: the file is a sequence of lines passed in or returned, and exiting is the `SystemExit` error.
- `time.time()` and `datetime.datetime.today()` are parameters of `WriteDb` (`currentTime`, `now`).
- `print_memdb` (Mpslibclass.py:132-205) is output only. `HLTConfigData::dump` and the `LogVerbatim` line are output only too.
- The file handling of `mps_splice`: the `ISN` regular-expression substitution (:294), the in-place `fileinput` insertion after the `readFiles = cms.untracked.vstring()` line (:317-320), and the `skipEvents` and `maxEvents` appends (:322-330). The model builds the blocks in order. Because each block is printed directly after that line, in the written file they appear in reverse order; the model does not capture this.
- `MpsDb.GetClass`: line 262 refers to `classInf`, not `self.classInf`, so it raises `NameError` before exiting. The model reports this path as the `SystemExit` error.
- `MpsDb.BlockCount`: `math.ceil(n/255.)` in floating point is modelled as the integer ceiling, which agrees for any file count a list can hold.
- The job lists are class attributes (:52-53), shared by all `jobdatabase` objects. The model gives each object its own lists.
- `MpsDb.JobDatabase.ReadJobs`: when a line raises partway, Python has already appended the fields read before the bad one, so the lists are left misaligned. The model appends a row only when the whole line reads.
- `MpsDb.Int`: only base 10, as `int()` is called; the model covers a sign, ASCII digits (not the other Unicode decimal digits `int()` accepts), underscores between digits and `str.isspace` whitespace.
- `ReadWriteRoundTrip` and `WriteThenRead` hold for storable values: text without ':', '\n' or '\r' (reading with `open(..., 'r')` ends a line at either), with stripped fields where `read_db` strips them. Other values do not survive the file format, in the source as in the model.
- `HLTConfigData` accessors that only return a member (`processName`, `globalTag`, `tableName`, `triggerNames`, `streamNames`, `datasetNames`, `streamContents`, `datasetContents`, `hltL1GTSeeds()`, `hltL1TSeeds()`, `l1tType`, `prescaleLabels`, `prescaleTable<T>`, `processPSet`, `id`) are fields of the class.
- The bodies of `canonicalModuleName` and `path_configuration::configurationToModuleBitPosition` are not part of this model. The first strips one leading '-', as the comment at :501-504 describes. The second is a function parameter of the class.
- `label.front()` on an empty module label (:169, :191) is undefined behaviour in C++. The model treats an empty label as not ignored.
- The trackiness flag of `existsAs<T>(name, true)` is ignored. Untracked parameters are read the same way.
- `FractionalPrescale` is an exact ratio `n/1`, and the double view is exact, since every 32-bit unsigned value is a double.
- The shared `s_dummyPSet()` is the constant empty tree.
- The module-info cache is not thread-safe in the source. The model is single-threaded.
- The C++ `unsigned int` counters and indices are unbounded naturals. The only place where the width matters, the L1T product at :301, is under Findings.

## Findings

| source | as written | input that shows it | evidently intended | confidence | as-written member | corrected member |
|---|---|---|---|---|---|---|
| HLTrigger/HLTcore/src/HLTConfigData.cc:301 | `(stage1 * stage2) != 0` on 32-bit unsigned counters, where the product wraps modulo 2^32 | 65536 stage-1 and 65536 stage-2 modules: the product is 2^32 ≡ 0, so the process is classified as type 1 (legacy) | type 0 whenever both kinds are present (`stage1 != 0 && stage2 != 0`) | low impact, needs 65536 modules of each kind; not executed | HLTExtraction.L1TTypeProductWraps | HLTExtraction.L1TType |
| HLTrigger/HLTcore/src/HLTConfigData.cc:507-529 | the cache is searched under the canonical name but filled under the label as given | a tree with modules "x" (class A) and "-x" (class B): `moduleInfoFor("-x")` stores x's entry under "-x", then `moduleInfoFor("--x")` finds that entry and answers A instead of B | key the cache by the canonical name on insertion too | low: it needs a module name starting with '-', and the body of `canonicalModuleName` is not part of this model; not executed | HLTExtraction.ModuleInfoCacheKeyMismatch | HLTConfig.HLTConfigData.ModuleInfoFor |
