/** `HLTConfigData`: the trigger-menu tables extracted once from a process
    parameter tree, their bounds-checked and one-past-the-end accessors, and
    the module-info cache that the `const` queries fill in. */
module HLTConfig {
  import opened Wrappers
  import opened Sequences
  import opened ParameterSet
  import opened HLTExtraction

  class HLTConfigData {
    /** The process parameter tree the tables are extracted from. */
    const processPSet: PSet
    /** `path_configuration::configurationToModuleBitPosition`, which is not part of this model. */
    const bitPosition: seq<string> -> seq<string>

    var processName: string
    var globalTag: string
    var tableName: string
    var triggerNames: seq<string>
    var moduleLabels: seq<seq<string>>
    var saveTagsModules: seq<seq<string>>
    var triggerIndex: map<string, nat>
    var moduleIndex: seq<map<string, nat>>
    var l1tType: nat
    var hltL1GTSeeds: seq<seq<(bool, string)>>
    var hltL1TSeeds: seq<seq<string>>
    var streamNames: seq<string>
    var streamIndex: map<string, nat>
    var streamContents: seq<seq<string>>
    var datasetNames: seq<string>
    var datasetIndex: map<string, nat>
    var datasetContents: seq<seq<string>>
    var prescaleTable: PrescaleTable
    var prescaleValuesDouble: map<string, seq<real>>
    var prescaleValuesFractional: map<string, seq<Fraction>>
    /** The `mutable` cache of `moduleInfoFor`, keyed by canonical module name. */
    var modulesInfo: map<string, ModuleInfo>

    /** Every cached entry is what resolving its name in the tree gives. */
    ghost predicate CacheValid()
      reads this`modulesInfo
    {
      forall name :: name in modulesInfo ==> ResolveModule(processPSet, name) == Success(modulesInfo[name])
    }

    /** One entry per trigger path in each per-path table, and index maps
        that find each path and each module at its position. */
    ghost predicate PathsValid()
      reads this`triggerNames, this`moduleLabels, this`saveTagsModules, this`triggerIndex
      reads this`moduleIndex, this`hltL1GTSeeds, this`hltL1TSeeds
    {
      PathsIndexed(PathTables(triggerNames, moduleLabels, saveTagsModules, triggerIndex, moduleIndex, hltL1GTSeeds, hltL1TSeeds))
    }

    /** Stream and dataset names sorted, distinct and indexed. */
    ghost predicate GroupsValid()
      reads this`streamNames, this`streamIndex, this`streamContents
      reads this`datasetNames, this`datasetIndex, this`datasetContents
    {
      && GroupIndexed(streamNames, streamIndex, streamContents)
      && GroupIndexed(datasetNames, datasetIndex, datasetContents)
    }

    /** Both prescale views agree with the prescale table. */
    ghost predicate PrescalesValid()
      reads this`prescaleTable, this`prescaleValuesDouble, this`prescaleValuesFractional
    {
      ViewsAgree(prescaleTable.table, prescaleValuesDouble, prescaleValuesFractional)
    }

    /** The shape every accessor relies on. */
    ghost predicate Valid()
      reads this
    {
      && PathsValid()
      && GroupsValid()
      && PrescalesValid()
      && l1tType <= 2
      && CacheValid()
    }

    /** The state the member initializers leave: every table empty. */
    ghost predicate IsEmpty()
      reads this
    {
      && processName == "" && globalTag == "" && tableName == ""
      && triggerNames == [] && moduleLabels == [] && saveTagsModules == []
      && triggerIndex == map[] && moduleIndex == [] && l1tType == 0
      && hltL1GTSeeds == [] && hltL1TSeeds == []
      && streamNames == [] && streamIndex == map[] && streamContents == []
      && datasetNames == [] && datasetIndex == map[] && datasetContents == []
      && prescaleTable == EmptyPrescaleTable
      && prescaleValuesDouble == map[] && prescaleValuesFractional == map[]
      && modulesInfo == map[]
    }

    /** Process name, global tag, table name and trigger names as read from the tree. */
    ghost predicate ProvenanceExtracted()
      reads this`processName, this`globalTag, this`tableName, this`triggerNames
    {
      ProvenanceOf(processPSet, processName, globalTag, tableName, triggerNames)
    }

    /** Module labels, save-tags modules, seeds and position maps of each path
        as computed from the tree. */
    ghost predicate PathsExtracted()
      reads this`triggerNames, this`moduleLabels, this`saveTagsModules, this`triggerIndex
      reads this`moduleIndex, this`hltL1GTSeeds, this`hltL1TSeeds
    {
      PathTablesOf(processPSet, bitPosition,
                   PathTables(triggerNames, moduleLabels, saveTagsModules, triggerIndex, moduleIndex, hltL1GTSeeds, hltL1TSeeds))
    }

    /** Streams and datasets as computed from the tree. */
    ghost predicate GroupsExtracted()
      reads this`streamNames, this`streamIndex, this`streamContents
      reads this`datasetNames, this`datasetIndex, this`datasetContents
    {
      && GroupsOf(StreamsOf(processPSet), streamNames, streamIndex, streamContents)
      && GroupsOf(DatasetsOf(processPSet), datasetNames, datasetIndex, datasetContents)
    }

    /** The L1 type as classified from the classes of all modules. */
    ghost predicate L1TTypeExtracted()
      reads this`l1tType
    {
      L1TTypeOf(processPSet, l1tType)
    }

    /** Every table holds what `extract()` computes from the tree. */
    ghost predicate Extracted()
      reads this
    {
      && ProvenanceExtracted()
      && PathsExtracted()
      && GroupsExtracted()
      && PrescaleTableOf(processPSet) == Success(prescaleTable)
      && L1TTypeExtracted()
    }

    /** The member-initializer list shared by both C++ constructors. */
    constructor Init(processPSet: PSet, bitPosition: seq<string> -> seq<string>)
      ensures this.processPSet == processPSet && this.bitPosition == bitPosition
      ensures IsEmpty() && Valid()
    {
      this.processPSet := processPSet;
      this.bitPosition := bitPosition;
      processName, globalTag, tableName := "", "", "";
      triggerNames, moduleLabels, saveTagsModules := [], [], [];
      triggerIndex, moduleIndex, l1tType := map[], [], 0;
      hltL1GTSeeds, hltL1TSeeds := [], [];
      streamNames, streamIndex, streamContents := [], map[], [];
      datasetNames, datasetIndex, datasetContents := [], map[], [];
      prescaleTable := EmptyPrescaleTable;
      prescaleValuesDouble, prescaleValuesFractional := map[], map[];
      modulesInfo := map[];
    }

    /** `HLTConfigData(const edm::ParameterSet*)`: the tables are extracted when
        the tree's id is valid; an exception from `extract()` leaves no object. */
    static method Create(processPSet: PSet, bitPosition: seq<string> -> seq<string>, idValid: bool)
      returns (r: Result<HLTConfigData, Fault>)
      ensures r.Success? ==> fresh(r.value) && r.value.processPSet == processPSet && r.value.Valid()
      ensures idValid ==> (r.Success? <==> ExtractionSucceeds(processPSet, bitPosition))
      ensures idValid && r.Success? ==> r.value.Extracted()
      ensures !idValid ==> r.Success? && r.value.IsEmpty()
      ensures r.Failure? ==> idValid && ExtractionFault(processPSet, bitPosition) == Some(r.error)
    {
      var data := new HLTConfigData.Init(processPSet, bitPosition);
      if idValid {
        var outcome := data.Extract();
        if outcome.Fail? {
          return Failure(outcome.error);
        }
      }
      r := Success(data);
    }

    // -------------------------------------------------------------------------
    // Module-info cache (:492-537)
    // -------------------------------------------------------------------------

    /** `moduleInfoFor(label)`: the cached entry for the label's canonical name,
        else the entry resolved from the tree, which is then cached under that
        name. */
    method ModuleInfoFor(moduleLabel: string) returns (r: Result<ModuleInfo, Fault>)
      requires CacheValid()
      modifies this`modulesInfo
      ensures CacheValid()
      ensures r == ResolveModule(processPSet, CanonicalModuleName(moduleLabel))
      ensures r.Success? ==> modulesInfo == old(modulesInfo)[CanonicalModuleName(moduleLabel) := r.value]
      ensures r.Failure? ==> modulesInfo == old(modulesInfo)
    {
      var canon := CanonicalModuleName(moduleLabel);
      if canon in modulesInfo {
        return Success(modulesInfo[canon]);
      }
      var info := UnknownModule;
      if Exists(processPSet, canon) {
        var p :- GetPSet(processPSet, canon);
        info := ModuleInfo(p, StringOr(p, "@module_type", ""), StringOr(p, "@module_edm_type", ""));
      }
      modulesInfo := modulesInfo[canon := info];
      r := Success(info);
    }

    /** `moduleType(label)`: the module's C++ class, "" for an unknown module. */
    method ModuleType(moduleLabel: string) returns (r: Result<string, Fault>)
      requires CacheValid()
      modifies this`modulesInfo
      ensures CacheValid()
      ensures r.Success? <==> ResolveModule(processPSet, CanonicalModuleName(moduleLabel)).Success?
      ensures r.Success? ==> r.value == ResolveModule(processPSet, CanonicalModuleName(moduleLabel)).value.className
      ensures r.Failure? ==> ResolveModule(processPSet, CanonicalModuleName(moduleLabel)) == Failure(r.error)
      ensures r.Success? && !Exists(processPSet, CanonicalModuleName(moduleLabel)) ==> r.value == ""
    {
      var info :- ModuleInfoFor(moduleLabel);
      r := Success(info.className);
    }

    /** `moduleEDMType(label)`: the module's EDM type, "" for an unknown module. */
    method ModuleEDMType(moduleLabel: string) returns (r: Result<string, Fault>)
      requires CacheValid()
      modifies this`modulesInfo
      ensures CacheValid()
      ensures r.Success? <==> ResolveModule(processPSet, CanonicalModuleName(moduleLabel)).Success?
      ensures r.Success? ==> r.value == ResolveModule(processPSet, CanonicalModuleName(moduleLabel)).value.edmType
      ensures r.Failure? ==> ResolveModule(processPSet, CanonicalModuleName(moduleLabel)) == Failure(r.error)
      ensures r.Success? && !Exists(processPSet, CanonicalModuleName(moduleLabel)) ==> r.value == ""
    {
      var info :- ModuleInfoFor(moduleLabel);
      r := Success(info.edmType);
    }

    /** `modulePSet(label)`: the parameter set stored under the label without
        its leading '-', the empty set for an unknown module. */
    method ModulePSet(moduleLabel: string) returns (r: Result<PSet, Fault>)
      requires CacheValid()
      modifies this`modulesInfo
      ensures CacheValid()
      ensures r.Success? <==> !Exists(processPSet, CanonicalModuleName(moduleLabel))
                              || ExistsAs(processPSet, CanonicalModuleName(moduleLabel), PSetKind)
      ensures r.Success? && Exists(processPSet, CanonicalModuleName(moduleLabel)) ==>
                r.value == processPSet.entries[CanonicalModuleName(moduleLabel)].p
      ensures r.Success? && !Exists(processPSet, CanonicalModuleName(moduleLabel)) ==> r.value == EmptyPSet
      ensures r.Failure? ==> ResolveModule(processPSet, CanonicalModuleName(moduleLabel)) == Failure(r.error)
    {
      var info :- ModuleInfoFor(moduleLabel);
      r := Success(info.pset);
    }

    /** `saveTags(label)`: the module's `saveTags` flag, false when it has none. */
    method SaveTags(moduleLabel: string) returns (r: Result<bool, Fault>)
      requires CacheValid()
      modifies this`modulesInfo
      ensures CacheValid()
      ensures r == SaveTagsFlag(processPSet, moduleLabel)
    {
      var info :- ModuleInfoFor(moduleLabel);
      r := Success(BoolOr(info.pset, "saveTags", false));
    }

    // -------------------------------------------------------------------------
    // extract() (:86-316)
    // -------------------------------------------------------------------------

    /** :132-145: the save-tags modules of each of `pathCount` paths, reading
        each path's module list through `moduleLabels(i)`, which throws once
        the paths run out. */
    method SaveTagsTable(paths: seq<seq<string>>, pathCount: nat) returns (r: Result<seq<seq<string>>, Fault>)
      requires CacheValid()
      requires |paths| <= pathCount
      modifies this`modulesInfo
      ensures CacheValid()
      ensures r.Success? <==> |paths| == pathCount && SaveTagsByPath(processPSet, paths).Success?
      ensures r.Success? ==> SaveTagsByPath(processPSet, paths) == Success(r.value)
      ensures SaveTagsByPath(processPSet, paths).Failure? ==> r == SaveTagsByPath(processPSet, paths)
      ensures SaveTagsByPath(processPSet, paths).Success? && |paths| < pathCount ==> r == Failure(IndexOutOfRange)
    {
      var table: seq<seq<string>> := [];
      for i := 0 to pathCount
        invariant CacheValid()
        invariant i <= |paths|
        invariant SaveTagsByPath(processPSet, paths[..i]) == Success(table)
      {
        if i >= |paths| {
          assert paths[..i] == paths;
          return Failure(IndexOutOfRange);
        }
        var kept := SaveTagsOfPath(paths[i]);
        if kept.Failure? {
          ByPathFirstFailure(SaveTagsRow(processPSet), paths, i);
          return Failure(kept.error);
        }
        ByPathSnoc(SaveTagsRow(processPSet), paths, i);
        table := table + [kept.value];
      }
      assert paths[..pathCount] == paths;
      r := Success(table);
    }

    /** The inner loop of :137-144 for one path: its modules whose `saveTags`
        flag is set, in path order. */
    method SaveTagsOfPath(modules: seq<string>) returns (r: Result<seq<string>, Fault>)
      requires CacheValid()
      modifies this`modulesInfo
      ensures CacheValid()
      ensures r.Success? <==> SaveTagsOf(processPSet, modules).Success?
      ensures r.Success? ==> SaveTagsOf(processPSet, modules) == Success(r.value)
      ensures r.Failure? ==> r == SaveTagsOf(processPSet, modules)
    {
      var kept: seq<string> := [];
      for j := 0 to |modules|
        invariant CacheValid()
        invariant SaveTagsOf(processPSet, modules[..j]) == Success(kept)
      {
        SaveTagsSnoc(processPSet, modules, j);
        var flag := SaveTags(modules[j]);
        if flag.Failure? {
          assert SaveTagsEntry(processPSet, modules[j]) == Failure(flag.error);
          return Failure(flag.error);
        }
        if flag.value {
          kept := kept + [modules[j]];
        } else {
          assert kept + [] == kept;
        }
      }
      assert modules[..|modules|] == modules;
      r := Success(kept);
    }

    /** :158-178: the legacy L1 seeds of each path. */
    method GTSeedsTable(paths: seq<seq<string>>) returns (r: Result<seq<seq<(bool, string)>>, Fault>)
      requires CacheValid()
      modifies this`modulesInfo
      ensures CacheValid()
      ensures r.Success? <==> GTSeedsByPath(processPSet, paths).Success?
      ensures r.Success? ==> GTSeedsByPath(processPSet, paths) == Success(r.value)
      ensures r.Failure? ==> r == GTSeedsByPath(processPSet, paths)
    {
      var table: seq<seq<(bool, string)>> := [];
      for i := 0 to |paths|
        invariant CacheValid()
        invariant GTSeedsByPath(processPSet, paths[..i]) == Success(table)
      {
        var modules := paths[i];
        var seeds: seq<(bool, string)> := [];
        for j := 0 to |modules|
          invariant CacheValid()
          invariant GTSeedsOf(processPSet, modules[..j]) == Success(seeds)
        {
          GTSeedsSnoc(processPSet, modules, j);
          var entry := GTSeedAt(modules[j]);
          if entry.Failure? {
            assert GTSeedsOf(processPSet, modules) == Failure(entry.error);
            ByPathFirstFailure(GTSeedsRow(processPSet), paths, i);
            return Failure(entry.error);
          }
          seeds := seeds + entry.value;
        }
        assert modules[..|modules|] == modules;
        ByPathSnoc(GTSeedsRow(processPSet), paths, i);
        table := table + [seeds];
      }
      assert paths[..|paths|] == paths;
      r := Success(table);
    }

    /** The body of the inner loop of :164-176 for one module label; its
        `moduleType` and `modulePSet` calls read the same cache entry. */
    method GTSeedAt(moduleLabel: string) returns (r: Result<seq<(bool, string)>, Fault>)
      requires CacheValid()
      modifies this`modulesInfo
      ensures CacheValid()
      ensures r == GTSeedEntry(processPSet, moduleLabel)
    {
      if IsDisabled(moduleLabel) {
        return Success([]);
      }
      var info :- ModuleInfoFor(moduleLabel);
      if info.className != GTSeedModuleType || info.pset == EmptyPSet {
        return Success([]);
      }
      var tech :- GetBool(info.pset, "L1TechTriggerSeeding");
      var expression :- GetString(info.pset, "L1SeedsLogicalExpression");
      r := Success([(tech, expression)]);
    }

    /** :182-203: the stage-2 L1 seeds of each path. */
    method L1TSeedsTable(paths: seq<seq<string>>) returns (r: Result<seq<seq<string>>, Fault>)
      requires CacheValid()
      modifies this`modulesInfo
      ensures CacheValid()
      ensures r.Success? <==> L1TSeedsByPath(processPSet, paths).Success?
      ensures r.Success? ==> L1TSeedsByPath(processPSet, paths) == Success(r.value)
      ensures r.Failure? ==> r == L1TSeedsByPath(processPSet, paths)
    {
      var table: seq<seq<string>> := [];
      for i := 0 to |paths|
        invariant CacheValid()
        invariant L1TSeedsByPath(processPSet, paths[..i]) == Success(table)
      {
        var modules := paths[i];
        var seeds: seq<string> := [];
        for j := 0 to |modules|
          invariant CacheValid()
          invariant L1TSeedsOf(processPSet, modules[..j]) == Success(seeds)
        {
          L1TSeedsSnoc(processPSet, modules, j);
          var entry := L1TSeedAt(modules[j]);
          if entry.Failure? {
            assert L1TSeedsOf(processPSet, modules) == Failure(entry.error);
            ByPathFirstFailure(L1TSeedsRow(processPSet), paths, i);
            return Failure(entry.error);
          }
          seeds := seeds + entry.value;
        }
        assert modules[..|modules|] == modules;
        ByPathSnoc(L1TSeedsRow(processPSet), paths, i);
        table := table + [seeds];
      }
      assert paths[..|paths|] == paths;
      r := Success(table);
    }

    /** The body of the inner loop of :187-201 for one module label; its
        `moduleType` and `modulePSet` calls read the same cache entry. */
    method L1TSeedAt(moduleLabel: string) returns (r: Result<seq<string>, Fault>)
      requires CacheValid()
      modifies this`modulesInfo
      ensures CacheValid()
      ensures r == L1TSeedEntry(processPSet, moduleLabel)
    {
      if IsDisabled(moduleLabel) {
        return Success([]);
      }
      var info :- ModuleInfoFor(moduleLabel);
      if info.className != L1TSeedModuleType || info.pset == EmptyPSet {
        return Success([]);
      }
      var objectMap :- GetInputTagLabel(info.pset, "L1GlobalInputTag");
      if objectMap == EmulatedObjectMapLabel {
        return Success([]);
      }
      var expression :- GetString(info.pset, "L1SeedsLogicalExpression");
      r := Success([expression]);
    }

    /** :285-310: count the legacy and the stage-2 L1 modules among the
        classes of all modules, and classify. */
    method ClassifyL1T() returns (r: Result<nat, Fault>)
      requires CacheValid()
      modifies this`modulesInfo
      ensures CacheValid()
      ensures r.Success? <==> ModuleTypesOf(processPSet, AllModulesOf(processPSet)).Success?
      ensures r.Success? ==>
                var types := ModuleTypesOf(processPSet, AllModulesOf(processPSet)).value;
                r.value == L1TType(CountOfTypes(types, Stage1ModuleTypes), CountOfTypes(types, Stage2ModuleTypes))
      ensures r.Failure? ==> r == Failure(ModuleTypesOf(processPSet, AllModulesOf(processPSet)).error)
    {
      // No class is both a legacy and a stage-2 L1 module.
      assert Stage1ModuleTypes !! Stage2ModuleTypes;
      var modules := AllModulesOf(processPSet);
      var types: seq<string> := [];
      var stage1, stage2 := 0, 0;
      for j := 0 to |modules|
        invariant CacheValid()
        invariant ModuleTypesOf(processPSet, modules[..j]) == Success(types)
        invariant stage1 == CountOfTypes(types, Stage1ModuleTypes)
        invariant stage2 == CountOfTypes(types, Stage2ModuleTypes)
      {
        ModuleTypesSnoc(processPSet, modules, j);
        var className := ModuleType(modules[j]);
        if className.Failure? {
          assert ModuleTypeEntry(processPSet, modules[j]) == Failure(className.error);
          return Failure(className.error);
        }
        var kind := className.value;
        CountOfTypesSnoc(types, kind, Stage1ModuleTypes);
        CountOfTypesSnoc(types, kind, Stage2ModuleTypes);
        if kind in Stage1ModuleTypes {
          stage1 := stage1 + 1;
        } else if kind in Stage2ModuleTypes {
          stage2 := stage2 + 1;
        }
        types := types + [kind];
      }
      assert modules[..|modules|] == modules;
      r := Success(L1TType(stage1, stage2));
    }

    /** :115-203: the module labels, save-tags modules, position maps and
        seeds of every trigger path. */
    method ExtractPathTables() returns (r: Result<PathTables, Fault>)
      requires CacheValid()
      modifies this`modulesInfo
      ensures CacheValid()
      ensures r.Success? <==>
                var labels := ModuleLabelsFound(processPSet, bitPosition, TriggerNamesOf(processPSet));
                && |labels| == |TriggerNamesOf(processPSet)|
                && SaveTagsByPath(processPSet, labels).Success?
                && GTSeedsByPath(processPSet, labels).Success?
                && L1TSeedsByPath(processPSet, labels).Success?
      ensures r.Success? ==> PathTablesOf(processPSet, bitPosition, r.value)
      ensures var names := TriggerNamesOf(processPSet);
              var labels := ModuleLabelsFound(processPSet, bitPosition, names);
              var saveTags := SaveTagsByPath(processPSet, labels);
              var gtSeeds := GTSeedsByPath(processPSet, labels);
              var l1tSeeds := L1TSeedsByPath(processPSet, labels);
              && (saveTags.Failure? ==> r == Failure(saveTags.error))
              && (saveTags.Success? && |labels| != |names| ==> r == Failure(IndexOutOfRange))
              && (saveTags.Success? && |labels| == |names| && gtSeeds.Failure? ==> r == Failure(gtSeeds.error))
              && (saveTags.Success? && |labels| == |names| && gtSeeds.Success? && l1tSeeds.Failure? ==>
                    r == Failure(l1tSeeds.error))
    {
      var names := TriggerNamesOf(processPSet);
      var labels := FindModuleLabels(processPSet, bitPosition, names);
      ModuleLabelsAligned(processPSet, bitPosition, names);
      var saveTags :- SaveTagsTable(labels, |names|);
      var byName, byPath := IndexPaths(names, labels);
      var gtSeeds :- GTSeedsTable(labels);
      var l1tSeeds :- L1TSeedsTable(labels);
      r := Success(PathTables(names, labels, saveTags, byName, byPath, gtSeeds, l1tSeeds));
    }

    /** :91-113: process name, global tag and table name. */
    method StoreProvenance(x: Tables)
      modifies this
      ensures processName == x.processName && globalTag == x.globalTag && tableName == x.tableName
      ensures unchanged(this`triggerNames, this`moduleLabels, this`saveTagsModules, this`triggerIndex,
                        this`moduleIndex, this`hltL1GTSeeds, this`hltL1TSeeds,
                        this`streamNames, this`streamIndex, this`streamContents,
                        this`datasetNames, this`datasetIndex, this`datasetContents,
                        this`prescaleTable, this`prescaleValuesDouble, this`prescaleValuesFractional, this`l1tType,
                        this`modulesInfo)
    {
      processName := x.processName;
      globalTag := x.globalTag;
      tableName := x.tableName;
    }

    /** :115-157: trigger names, module labels and save-tags modules of each
        path, and the position of each path. */
    method StorePathLabels(x: Tables)
      modifies this
      ensures triggerNames == x.paths.names && moduleLabels == x.paths.labels
      ensures saveTagsModules == x.paths.saveTags && triggerIndex == x.paths.byName
      ensures unchanged(this`processName, this`globalTag, this`tableName,
                        this`moduleIndex, this`hltL1GTSeeds, this`hltL1TSeeds,
                        this`streamNames, this`streamIndex, this`streamContents,
                        this`datasetNames, this`datasetIndex, this`datasetContents,
                        this`prescaleTable, this`prescaleValuesDouble, this`prescaleValuesFractional, this`l1tType,
                        this`modulesInfo)
    {
      triggerNames := x.paths.names;
      moduleLabels := x.paths.labels;
      saveTagsModules := x.paths.saveTags;
      triggerIndex := x.paths.byName;
    }

    /** :148-203: the positions of the modules on each path and the L1 seeds of each path. */
    method StorePathSeeds(x: Tables)
      modifies this
      ensures moduleIndex == x.paths.byPath
      ensures hltL1GTSeeds == x.paths.gtSeeds && hltL1TSeeds == x.paths.l1tSeeds
      ensures unchanged(this`processName, this`globalTag, this`tableName,
                        this`triggerNames, this`moduleLabels, this`saveTagsModules, this`triggerIndex,
                        this`streamNames, this`streamIndex, this`streamContents,
                        this`datasetNames, this`datasetIndex, this`datasetContents,
                        this`prescaleTable, this`prescaleValuesDouble, this`prescaleValuesFractional, this`l1tType,
                        this`modulesInfo)
    {
      moduleIndex := x.paths.byPath;
      hltL1GTSeeds := x.paths.gtSeeds;
      hltL1TSeeds := x.paths.l1tSeeds;
    }

    /** :205-217: the stream table. */
    method StoreStreams(x: Tables)
      modifies this
      ensures streamNames == x.streams.names && streamIndex == x.streams.index && streamContents == x.streams.contents
      ensures unchanged(this`processName, this`globalTag, this`tableName,
                        this`triggerNames, this`moduleLabels, this`saveTagsModules, this`triggerIndex,
                        this`moduleIndex, this`hltL1GTSeeds, this`hltL1TSeeds,
                        this`datasetNames, this`datasetIndex, this`datasetContents,
                        this`prescaleTable, this`prescaleValuesDouble, this`prescaleValuesFractional, this`l1tType,
                        this`modulesInfo)
    {
      streamNames := x.streams.names;
      streamIndex := x.streams.index;
      streamContents := x.streams.contents;
    }

    /** :219-231: the dataset table. */
    method StoreDatasets(x: Tables)
      modifies this
      ensures datasetNames == x.datasets.names && datasetIndex == x.datasets.index && datasetContents == x.datasets.contents
      ensures unchanged(this`processName, this`globalTag, this`tableName,
                        this`triggerNames, this`moduleLabels, this`saveTagsModules, this`triggerIndex,
                        this`moduleIndex, this`hltL1GTSeeds, this`hltL1TSeeds,
                        this`streamNames, this`streamIndex, this`streamContents,
                        this`prescaleTable, this`prescaleValuesDouble, this`prescaleValuesFractional, this`l1tType,
                        this`modulesInfo)
    {
      datasetNames := x.datasets.names;
      datasetIndex := x.datasets.index;
      datasetContents := x.datasets.contents;
    }

    /** :233-310: the prescale table, its two value views and the L1 type. */
    method StorePrescalesAndL1TType(x: Tables)
      modifies this
      ensures prescaleTable == x.prescales && prescaleValuesDouble == x.asDouble
      ensures prescaleValuesFractional == x.asFraction && l1tType == x.l1tType
      ensures unchanged(this`processName, this`globalTag, this`tableName,
                        this`triggerNames, this`moduleLabels, this`saveTagsModules, this`triggerIndex,
                        this`moduleIndex, this`hltL1GTSeeds, this`hltL1TSeeds,
                        this`streamNames, this`streamIndex, this`streamContents,
                        this`datasetNames, this`datasetIndex, this`datasetContents,
                        this`modulesInfo)
    {
      prescaleTable := x.prescales;
      prescaleValuesDouble := x.asDouble;
      prescaleValuesFractional := x.asFraction;
      l1tType := x.l1tType;
    }

    /** `extract()`: the stages in the order of :86-316, the first exception
        ending it; the tables are stored once every stage has run. */
    method Extract() returns (r: Outcome<Fault>)
      requires CacheValid()
      modifies this
      ensures CacheValid()
      ensures r.Pass? <==> ExtractionSucceeds(processPSet, bitPosition)
      ensures r.Fail? ==> ExtractionFault(processPSet, bitPosition) == Some(r.error)
      ensures r.Pass? ==> Extracted()
      ensures r.Pass? ==> Valid()
    {
      var t := processPSet;
      var tag := GlobalTagOf(t);
      if tag.Failure? {
        return Fail(tag.error);
      }
      var paths := ExtractPathTables();
      if paths.Failure? {
        return Fail(paths.error);
      }
      var sNames, sIndex, sContents := SortedGroups(StreamsOf(t));
      var dNames, dIndex, dContents := SortedGroups(DatasetsOf(t));
      var prescales := ExtractPrescaleTable(t);
      if prescales.Failure? {
        return Fail(prescales.error);
      }
      var asDouble, asFraction := PrescaleViews(prescales.value.table);
      var kind := ClassifyL1T();
      if kind.Failure? {
        return Fail(kind.error);
      }
      var x := Tables(ProcessNameOf(t), tag.value, TableNameOf(t), paths.value,
                      Groups(sNames, sIndex, sContents), Groups(dNames, dIndex, dContents),
                      prescales.value, asDouble, asFraction, kind.value);
      StoreProvenance(x);
      StorePathLabels(x);
      StorePathSeeds(x);
      StoreStreams(x);
      StoreDatasets(x);
      StorePrescalesAndL1TType(x);
      r := Pass;
    }

    // -------------------------------------------------------------------------
    // Accessors (:439-625)
    // -------------------------------------------------------------------------

    /** `size()`: the number of trigger paths. */
    function Size(): nat
      reads this
    {
      |triggerNames|
    }

    /** `triggerIndex(name)`: the path's position, `size()` when there is no such path. */
    function TriggerIndex(trigger: string): (r: nat)
      reads this
      requires Valid()
      ensures r <= Size()
      ensures r < Size() <==> trigger in triggerNames
      ensures r < Size() ==> IsLastIndex(triggerNames, r, trigger)
    {
      Find(triggerIndex, triggerNames, trigger)
    }

    /** `triggerName(i)`: bounds-checked. */
    function TriggerName(trigger: nat): (r: Result<string, Fault>)
      reads this
      ensures r.Success? <==> trigger < Size()
      ensures r.Success? ==> r.value == triggerNames[trigger]
      ensures r.Failure? ==> r.error == IndexOutOfRange
    {
      At(triggerNames, trigger)
    }

    /** `size(i)`: the number of modules on path i, bounds-checked. */
    function PathSize(trigger: nat): (r: Result<nat, Fault>)
      reads this
      requires Valid()
      ensures r.Success? <==> trigger < Size()
      ensures r.Success? ==> r.value == |moduleLabels[trigger]|
      ensures r.Failure? ==> r.error == IndexOutOfRange
    {
      var modules :- At(moduleLabels, trigger);
      Success(|modules|)
    }

    /** `size(name)`: throws for a name that is not a trigger path. */
    function PathSizeByName(trigger: string): (r: Result<nat, Fault>)
      reads this
      requires Valid()
      ensures r.Success? <==> trigger in triggerNames
      ensures r.Success? ==> r.value == |moduleLabels[TriggerIndex(trigger)]|
      ensures r.Failure? ==> r.error == IndexOutOfRange
    {
      PathSize(TriggerIndex(trigger))
    }

    /** `moduleLabels(i)`: bounds-checked. */
    function ModuleLabels(trigger: nat): (r: Result<seq<string>, Fault>)
      reads this
      requires Valid()
      ensures r.Success? <==> trigger < Size()
      ensures r.Success? ==> r.value == moduleLabels[trigger]
      ensures r.Failure? ==> r.error == IndexOutOfRange
    {
      At(moduleLabels, trigger)
    }

    /** `moduleLabels(name)`: throws for a name that is not a trigger path. */
    function ModuleLabelsByName(trigger: string): (r: Result<seq<string>, Fault>)
      reads this
      requires Valid()
      ensures r.Success? <==> trigger in triggerNames
      ensures r.Success? ==> exists i :: IsLastIndex(triggerNames, i, trigger) && r.value == moduleLabels[i]
      ensures r.Failure? ==> r.error == IndexOutOfRange
    {
      At(moduleLabels, TriggerIndex(trigger))
    }

    /** `saveTagsModules(i)`: bounds-checked. */
    function SaveTagsModules(trigger: nat): (r: Result<seq<string>, Fault>)
      reads this
      requires Valid()
      ensures r.Success? <==> trigger < Size()
      ensures r.Success? ==> r.value == saveTagsModules[trigger]
      ensures r.Failure? ==> r.error == IndexOutOfRange
    {
      At(saveTagsModules, trigger)
    }

    /** `saveTagsModules(name)`: throws for a name that is not a trigger path. */
    function SaveTagsModulesByName(trigger: string): (r: Result<seq<string>, Fault>)
      reads this
      requires Valid()
      ensures r.Success? <==> trigger in triggerNames
      ensures r.Success? ==> exists i :: IsLastIndex(triggerNames, i, trigger) && r.value == saveTagsModules[i]
      ensures r.Failure? ==> r.error == IndexOutOfRange
    {
      At(saveTagsModules, TriggerIndex(trigger))
    }

    /** `moduleLabel(i, j)`: both indices bounds-checked. */
    function ModuleLabel(trigger: nat, position: nat): (r: Result<string, Fault>)
      reads this
      requires Valid()
      ensures r.Success? <==> trigger < Size() && position < |moduleLabels[trigger]|
      ensures r.Success? ==> r.value == moduleLabels[trigger][position]
      ensures r.Failure? ==> r.error == IndexOutOfRange
    {
      var modules :- At(moduleLabels, trigger);
      At(modules, position)
    }

    /** `moduleLabel(name, j)`: throws for a name that is not a trigger path
        and for a position past the end of the named path. */
    function ModuleLabelByName(trigger: string, position: nat): (r: Result<string, Fault>)
      reads this
      requires Valid()
      ensures r.Success? <==> exists i :: IsLastIndex(triggerNames, i, trigger) && position < |moduleLabels[i]|
      ensures r.Success? ==> exists i :: IsLastIndex(triggerNames, i, trigger) && r.value == moduleLabels[i][position]
      ensures r.Failure? ==> r.error == IndexOutOfRange
    {
      ModuleLabel(TriggerIndex(trigger), position)
    }

    /** `moduleIndex(i, label)`: the label's position on path i, `size(i)`
        when it is not on the path; throws for a path index out of range. */
    function ModuleIndex(trigger: nat, moduleLabel: string): (r: Result<nat, Fault>)
      reads this
      requires Valid()
      ensures r.Success? <==> trigger < Size()
      ensures r.Success? ==> r.value <= |moduleLabels[trigger]|
      ensures r.Success? ==> (r.value < |moduleLabels[trigger]| <==> moduleLabel in moduleLabels[trigger])
      ensures r.Success? && r.value < |moduleLabels[trigger]| ==> IsLastIndex(moduleLabels[trigger], r.value, moduleLabel)
      ensures r.Failure? ==> r.error == IndexOutOfRange
    {
      if trigger < |moduleIndex| then Success(Find(moduleIndex[trigger], moduleLabels[trigger], moduleLabel))
      else Failure(IndexOutOfRange)
    }

    /** `moduleIndex(name, label)`: the label's position on the named path,
        the path's size when it is not on it; throws for a name that is not
        a trigger path. */
    function ModuleIndexByName(trigger: string, moduleLabel: string): (r: Result<nat, Fault>)
      reads this
      requires Valid()
      ensures r.Success? <==> trigger in triggerNames
      ensures r.Success? ==>
                exists i ::
                  && IsLastIndex(triggerNames, i, trigger)
                  && r.value <= |moduleLabels[i]|
                  && (r.value == |moduleLabels[i]| <==> moduleLabel !in moduleLabels[i])
                  && (r.value < |moduleLabels[i]| ==> IsLastIndex(moduleLabels[i], r.value, moduleLabel))
      ensures r.Failure? ==> r.error == IndexOutOfRange
    {
      ModuleIndex(TriggerIndex(trigger), moduleLabel)
    }

    /** `hltL1GTSeeds(i)`: bounds-checked. */
    function HltL1GTSeeds(trigger: nat): (r: Result<seq<(bool, string)>, Fault>)
      reads this
      requires Valid()
      ensures r.Success? <==> trigger < Size()
      ensures r.Success? ==> r.value == hltL1GTSeeds[trigger]
      ensures r.Failure? ==> r.error == IndexOutOfRange
    {
      At(hltL1GTSeeds, trigger)
    }

    /** `hltL1GTSeeds(name)`: throws for a name that is not a trigger path. */
    function HltL1GTSeedsByName(trigger: string): (r: Result<seq<(bool, string)>, Fault>)
      reads this
      requires Valid()
      ensures r.Success? <==> trigger in triggerNames
      ensures r.Success? ==> exists i :: IsLastIndex(triggerNames, i, trigger) && r.value == hltL1GTSeeds[i]
      ensures r.Failure? ==> r.error == IndexOutOfRange
    {
      HltL1GTSeeds(TriggerIndex(trigger))
    }

    /** `hltL1TSeeds(i)`: bounds-checked. */
    function HltL1TSeeds(trigger: nat): (r: Result<seq<string>, Fault>)
      reads this
      requires Valid()
      ensures r.Success? <==> trigger < Size()
      ensures r.Success? ==> r.value == hltL1TSeeds[trigger]
      ensures r.Failure? ==> r.error == IndexOutOfRange
    {
      At(hltL1TSeeds, trigger)
    }

    /** `hltL1TSeeds(name)`: throws for a name that is not a trigger path. */
    function HltL1TSeedsByName(trigger: string): (r: Result<seq<string>, Fault>)
      reads this
      requires Valid()
      ensures r.Success? <==> trigger in triggerNames
      ensures r.Success? ==> exists i :: IsLastIndex(triggerNames, i, trigger) && r.value == hltL1TSeeds[i]
      ensures r.Failure? ==> r.error == IndexOutOfRange
    {
      HltL1TSeeds(TriggerIndex(trigger))
    }

    /** `streamName(i)`: bounds-checked. */
    function StreamName(stream: nat): (r: Result<string, Fault>)
      reads this
      ensures r.Success? <==> stream < |streamNames|
      ensures r.Success? ==> r.value == streamNames[stream]
      ensures r.Failure? ==> r.error == IndexOutOfRange
    {
      At(streamNames, stream)
    }

    /** `streamIndex(name)`: the stream's position, the number of streams when there is none. */
    function StreamIndex(stream: string): (r: nat)
      reads this
      requires Valid()
      ensures r <= |streamNames|
      ensures r < |streamNames| <==> stream in streamNames
      ensures r < |streamNames| ==> streamNames[r] == stream
    {
      Find(streamIndex, streamNames, stream)
    }

    /** `streamContent(i)`: bounds-checked. */
    function StreamContent(stream: nat): (r: Result<seq<string>, Fault>)
      reads this
      requires Valid()
      ensures r.Success? <==> stream < |streamNames|
      ensures r.Success? ==> r.value == streamContents[stream]
      ensures r.Failure? ==> r.error == IndexOutOfRange
    {
      At(streamContents, stream)
    }

    /** `streamContent(name)`: throws for a name that is not a stream. */
    function StreamContentByName(stream: string): (r: Result<seq<string>, Fault>)
      reads this
      requires Valid()
      ensures r.Success? <==> stream in streamNames
      ensures r.Success? ==> exists j :: 0 <= j < |streamNames| && streamNames[j] == stream && r.value == streamContents[j]
      ensures r.Failure? ==> r.error == IndexOutOfRange
    {
      StreamContent(StreamIndex(stream))
    }

    /** `datasetName(i)`: bounds-checked. */
    function DatasetName(dataset: nat): (r: Result<string, Fault>)
      reads this
      ensures r.Success? <==> dataset < |datasetNames|
      ensures r.Success? ==> r.value == datasetNames[dataset]
      ensures r.Failure? ==> r.error == IndexOutOfRange
    {
      At(datasetNames, dataset)
    }

    /** `datasetIndex(name)`: the dataset's position, the number of datasets when there is none. */
    function DatasetIndex(dataset: string): (r: nat)
      reads this
      requires Valid()
      ensures r <= |datasetNames|
      ensures r < |datasetNames| <==> dataset in datasetNames
      ensures r < |datasetNames| ==> datasetNames[r] == dataset
    {
      Find(datasetIndex, datasetNames, dataset)
    }

    /** `datasetContent(i)`: bounds-checked. */
    function DatasetContent(dataset: nat): (r: Result<seq<string>, Fault>)
      reads this
      requires Valid()
      ensures r.Success? <==> dataset < |datasetNames|
      ensures r.Success? ==> r.value == datasetContents[dataset]
      ensures r.Failure? ==> r.error == IndexOutOfRange
    {
      At(datasetContents, dataset)
    }

    /** `datasetContent(name)`: throws for a name that is not a dataset. */
    function DatasetContentByName(dataset: string): (r: Result<seq<string>, Fault>)
      reads this
      requires Valid()
      ensures r.Success? <==> dataset in datasetNames
      ensures r.Success? ==> exists j :: 0 <= j < |datasetNames| && datasetNames[j] == dataset && r.value == datasetContents[j]
      ensures r.Failure? ==> r.error == IndexOutOfRange
    {
      DatasetContent(DatasetIndex(dataset))
    }

    /** `prescaleSize()`: the number of prescale sets; 0 on an object whose
        tree was never extracted. */
    function PrescaleSize(): (r: nat)
      reads this
      requires Valid()
      ensures r == |prescaleTable.labels|
      ensures IsEmpty() ==> r == 0
      ensures Extracted() && PrescaleSource(processPSet).None? ==> r == 0
    {
      prescaleTable.Size()
    }

    // -------------------------------------------------------------------------
    // Properties of the extracted tables
    // -------------------------------------------------------------------------

    /** Looking a path up by name and then by position gives the name back;
        with distinct path names, looking up the name at a position gives the
        position back. */
    lemma TriggerIndexRoundTrip(trigger: string, i: nat)
      requires Valid()
      ensures trigger in triggerNames ==> TriggerName(TriggerIndex(trigger)) == Success(trigger)
      ensures Distinct(triggerNames) && i < Size() ==> TriggerIndex(triggerNames[i]) == i
    {
      if Distinct(triggerNames) && i < Size() {
        FindInverse(triggerIndex, triggerNames, i);
      }
    }

    /** Stream and dataset names are distinct, so name and position lookups
        are inverse to each other. */
    lemma StreamAndDatasetIndexInverse(i: nat, k: nat)
      requires Valid()
      ensures i < |streamNames| ==> StreamIndex(streamNames[i]) == i
      ensures k < |datasetNames| ==> DatasetIndex(datasetNames[k]) == k
    {
      if i < |streamNames| {
        FindInverse(streamIndex, streamNames, i);
      }
      if k < |datasetNames| {
        FindInverse(datasetIndex, datasetNames, k);
      }
    }

    /** A module's position on a path names the module; on a path without
        repeated labels, the label at a position is found at that position. */
    lemma ModuleIndexRoundTrip(trigger: nat, position: nat)
      requires Valid()
      requires trigger < Size()
      ensures position < |moduleLabels[trigger]| && Distinct(moduleLabels[trigger]) ==>
                ModuleIndex(trigger, moduleLabels[trigger][position]) == Success(position)
      ensures position < |moduleLabels[trigger]| ==>
                var found := ModuleIndex(trigger, moduleLabels[trigger][position]).value;
                ModuleLabel(trigger, found) == Success(moduleLabels[trigger][position])
    {
      if position < |moduleLabels[trigger]| && Distinct(moduleLabels[trigger]) {
        FindInverse(moduleIndex[trigger], moduleLabels[trigger], position);
      }
    }

    /** The save-tags modules of each extracted path are those of its modules
        that save tags, in path order. */
    lemma SaveTagsModulesOfPath(trigger: nat)
      requires Valid() && Extracted()
      requires trigger < Size()
      ensures IsSubsequence(saveTagsModules[trigger], moduleLabels[trigger])
      ensures forall x :: x in saveTagsModules[trigger] <==>
                x in moduleLabels[trigger] && SaveTagsFlag(processPSet, x) == Success(true)
      ensures forall x :: multiset(saveTagsModules[trigger])[x]
                == if SaveTagsFlag(processPSet, x) == Success(true) then multiset(moduleLabels[trigger])[x] else 0
    {
      ByPathRows(SaveTagsRow(processPSet), moduleLabels);
      SaveTagsOfFilters(processPSet, moduleLabels[trigger]);
    }

    /** The extracted L1 type is 1 exactly when some module is a legacy L1
        module and none is a stage-2 one, 2 in the opposite case, 0 otherwise. */
    lemma L1TTypeOfProcess()
      requires Extracted()
      ensures var types := ModuleTypesOf(processPSet, AllModulesOf(processPSet)).value;
              var legacy := exists i :: 0 <= i < |types| && types[i] in Stage1ModuleTypes;
              var stage2 := exists i :: 0 <= i < |types| && types[i] in Stage2ModuleTypes;
              && (l1tType == 0 <==> legacy == stage2)
              && (l1tType == 1 <==> legacy && !stage2)
              && (l1tType == 2 <==> stage2 && !legacy)
    {
      L1TTypeOfModules(ModuleTypesOf(processPSet, AllModulesOf(processPSet)).value);
    }
  }
}
