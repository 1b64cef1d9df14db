/** What `HLTConfigData::extract()` computes from the process parameter tree,
    stated as functions of the tree, together with the loops of `extract()`
    that work on values only (index maps, the prescale table, its two views).
    The class `HLTConfigData` in module HLTConfig runs the loops that go
    through the module-info cache and stores the results. */
module HLTExtraction {
  import opened Wrappers
  import opened Sequences
  import opened ParameterSet

  // ===========================================================================
  // Module metadata (moduleInfoFor, moduleType, modulePSet, saveTags)
  // ===========================================================================

  /** What `moduleInfoFor` resolves for a module: its parameter set, its C++
      class (`@module_type`) and its EDM type (`@module_edm_type`). */
  datatype ModuleInfo = ModuleInfo(pset: PSet, className: string, edmType: string)

  /** The entry recorded for a label the tree does not know. */
  const UnknownModule: ModuleInfo := ModuleInfo(EmptyPSet, "", "")

  /** A label written "-name" on a path: the module is present but ignored. */
  predicate IsDisabled(moduleLabel: string) {
    |moduleLabel| > 0 && moduleLabel[0] == '-'
  }

  /** `canonicalModuleName`: the name under which the module's parameter set is
      stored, i.e. the label without its leading '-'. */
  function CanonicalModuleName(moduleLabel: string): (r: string)
    ensures IsDisabled(moduleLabel) ==> moduleLabel == "-" + r
    ensures !IsDisabled(moduleLabel) ==> r == moduleLabel
  {
    if IsDisabled(moduleLabel) then moduleLabel[1..] else moduleLabel
  }

  /** The cache-miss branch of `moduleInfoFor` for a canonical name: the
      module's own parameter set when the tree has one, the dummy otherwise;
      a name bound to something other than a parameter set makes
      `getParameterSet` throw. */
  function ResolveModule(t: PSet, name: string): (r: Result<ModuleInfo, Fault>)
    ensures r.Failure? <==> Exists(t, name) && !ExistsAs(t, name, PSetKind)
    ensures !Exists(t, name) ==> r == Success(UnknownModule)
    ensures ExistsAs(t, name, PSetKind) ==> r.Success? && r.value.pset == t.entries[name].p
    ensures r.Success? && r.value.className != "" ==> ExistsAs(r.value.pset, "@module_type", StringKind)
  {
    if Exists(t, name) then
      var p :- GetPSet(t, name);
      Success(ModuleInfo(p, StringOr(p, "@module_type", ""), StringOr(p, "@module_edm_type", "")))
    else
      Success(UnknownModule)
  }

  /** A module whose class is known has a non-empty parameter set, so the
      `pset != ParameterSet()` guards of the seed scans never skip a module
      whose type matched. */
  lemma KnownModuleHasParameters(t: PSet, name: string)
    requires ResolveModule(t, name).Success?
    requires ResolveModule(t, name).value.className != ""
    ensures ResolveModule(t, name).value.pset != EmptyPSet
  {
    var p := ResolveModule(t, name).value.pset;
    assert "@module_type" in p.entries;
  }

  /** `moduleInfoFor` as written (:507-529), on a cache given as a map: the
      cache is searched under the canonical name but the entry is emplaced
      under the label as given, and `emplace` keeps an entry already there. */
  function ModuleInfoForAsWritten(t: PSet, cache: map<string, ModuleInfo>, moduleLabel: string)
    : (Result<ModuleInfo, Fault>, map<string, ModuleInfo>)
  {
    var canon := CanonicalModuleName(moduleLabel);
    if canon in cache then (Success(cache[canon]), cache)
    else
      match ResolveModule(t, canon)
      case Failure(e) => (Failure(e), cache)
      case Success(info) =>
        if moduleLabel in cache then (Success(cache[moduleLabel]), cache)
        else (Success(info), cache[moduleLabel := info])
  }

  /** A tree whose module "x" has class "A" and whose module "-x" has class "B". */
  const TwoModulesTree: PSet :=
    PSet(map["x" := VPSet(PSet(map["@module_type" := VString("A")])),
             "-x" := VPSet(PSet(map["@module_type" := VString("B")]))])

  /** Asking for "-x" stores x's entry under "-x"; asking next for "--x",
      whose canonical name is "-x", returns x's class "A" from the cache
      instead of the class "B" of module "-x". */
  lemma ModuleInfoCacheKeyMismatch()
    ensures var (first, cache) := ModuleInfoForAsWritten(TwoModulesTree, map[], "-x");
            var (second, _) := ModuleInfoForAsWritten(TwoModulesTree, cache, "--x");
            && first.Success? && first.value.className == "A"
            && second.Success? && second.value.className == "A"
            && ResolveModule(TwoModulesTree, CanonicalModuleName("--x")).Success?
            && ResolveModule(TwoModulesTree, CanonicalModuleName("--x")).value.className == "B"
  {
    assert CanonicalModuleName("-x") == "x";
    assert CanonicalModuleName("--x") == "-x";
    assert "x" != "-x";
  }

  /** `saveTags(label)`: the module's boolean `saveTags`, false when absent. */
  function SaveTagsFlag(t: PSet, moduleLabel: string): Result<bool, Fault> {
    var info :- ResolveModule(t, CanonicalModuleName(moduleLabel));
    Success(BoolOr(info.pset, "saveTags", false))
  }

  /** What one module label adds to its path's save-tags list: itself when its module saves tags. */
  function SaveTagsEntry(t: PSet, moduleLabel: string): Result<seq<string>, Fault> {
    var flag :- SaveTagsFlag(t, moduleLabel);
    Success(if flag then [moduleLabel] else [])
  }

  /** The inner loop of :134-145 over one path's module labels. */
  function SaveTagsOf(t: PSet, labels: seq<string>): Result<seq<string>, Fault> {
    Collect(m => SaveTagsEntry(t, m), labels)
  }

  /** The save-tags modules of a path are the order-preserving subsequence of
      its module labels whose module sets `saveTags` (disabled labels
      included); the scan fails exactly when some label's module cannot be
      resolved. */
  lemma {:induction false} SaveTagsOfFilters(t: PSet, labels: seq<string>)
    ensures SaveTagsOf(t, labels).Success?
            <==> forall i :: 0 <= i < |labels| ==> SaveTagsFlag(t, labels[i]).Success?
    ensures SaveTagsOf(t, labels).Success? ==> IsSubsequence(SaveTagsOf(t, labels).value, labels)
    ensures SaveTagsOf(t, labels).Success? ==>
              forall x :: x in SaveTagsOf(t, labels).value <==> x in labels && SaveTagsFlag(t, x) == Success(true)
    ensures SaveTagsOf(t, labels).Success? ==>
              forall x :: multiset(SaveTagsOf(t, labels).value)[x]
                          == if SaveTagsFlag(t, x) == Success(true) then multiset(labels)[x] else 0
    decreases |labels|
  {
    if labels != [] {
      var init := labels[..|labels| - 1];
      var z := labels[|labels| - 1];
      var entry := m => SaveTagsEntry(t, m);
      assert SaveTagsOf(t, labels) == Collect(entry, labels);
      assert labels == init + [z];
      SaveTagsOfFilters(t, init);
      assert forall i :: 0 <= i < |init| ==> labels[i] == init[i];
      assert forall x :: x in labels <==> x in init || x == z;
      assert multiset(labels) == multiset(init) + multiset{z};
      if SaveTagsOf(t, labels).Success? {
        var kept := SaveTagsOf(t, init).value;
        var r := SaveTagsOf(t, labels).value;
        assert r == kept + entry(z).value;
        assert multiset(r) == multiset(kept) + multiset(entry(z).value);
        if SaveTagsFlag(t, z).value {
          assert r[..|r| - 1] == kept;
        } else {
          assert r == kept;
        }
      }
    }
  }

  // ===========================================================================
  // Module labels of the trigger paths (:115-131)
  // ===========================================================================

  /** The trigger path names, read from `@trigger_paths` inside the
      `@trigger_paths` parameter set; empty when either is missing. */
  function TriggerNamesOf(t: PSet): seq<string> {
    if ExistsAs(t, "@trigger_paths", PSetKind) then StringsOr(t.entries["@trigger_paths"].p, "@trigger_paths", [])
    else []
  }

  /** The push_back loop of :126-131: a path contributes its module list (as
      `configurationToModuleBitPosition` rearranges it) only when the tree
      holds it as a vstring, so a missing path shifts all later ones. */
  function ModuleLabelsFound(t: PSet, bitPosition: seq<string> -> seq<string>, names: seq<string>): seq<seq<string>>
    decreases |names|
  {
    if names == [] then []
    else
      var found := ModuleLabelsFound(t, bitPosition, names[..|names| - 1]);
      var name := names[|names| - 1];
      if ExistsAs(t, name, StringsKind) then found + [bitPosition(t.entries[name].ss)] else found
  }

  /** The module-label table is aligned with the trigger names exactly when
      every path is present; then entry i is path i's module list. */
  lemma {:induction false} ModuleLabelsAligned(t: PSet, bitPosition: seq<string> -> seq<string>, names: seq<string>)
    ensures |ModuleLabelsFound(t, bitPosition, names)| <= |names|
    ensures |ModuleLabelsFound(t, bitPosition, names)| == |names|
            <==> forall i :: 0 <= i < |names| ==> ExistsAs(t, names[i], StringsKind)
    ensures |ModuleLabelsFound(t, bitPosition, names)| == |names| ==>
              forall i :: 0 <= i < |names| ==> ModuleLabelsFound(t, bitPosition, names)[i] == bitPosition(t.entries[names[i]].ss)
    decreases |names|
  {
    if names != [] {
      var init := names[..|names| - 1];
      ModuleLabelsAligned(t, bitPosition, init);
      assert forall i :: 0 <= i < |init| ==> names[i] == init[i];
    }
  }

  /** :124-131: the module list of each trigger path the tree holds, pushed
      back in path order. */
  method FindModuleLabels(t: PSet, bitPosition: seq<string> -> seq<string>, names: seq<string>)
    returns (found: seq<seq<string>>)
    ensures found == ModuleLabelsFound(t, bitPosition, names)
  {
    found := [];
    for i := 0 to |names|
      invariant found == ModuleLabelsFound(t, bitPosition, names[..i])
    {
      assert names[..i + 1][..i] == names[..i];
      if ExistsAs(t, names[i], StringsKind) {
        found := found + [bitPosition(t.entries[names[i]].ss)];
      }
    }
    assert names[..|names|] == names;
  }

  // ===========================================================================
  // L1 seeds (:158-203)
  // ===========================================================================

  const GTSeedModuleType: string := "HLTLevel1GTSeed"
  const L1TSeedModuleType: string := "HLTL1TSeed"
  /** The emulator's object map: a stage-2 seed reading it has its prescales ignored. */
  const EmulatedObjectMapLabel: string := "hltGtStage2ObjectMap"

  /** The entries one scan contributes for a run of module labels, in module order. */
  function Collect<T>(entry: string -> Result<seq<T>, Fault>, labels: seq<string>): Result<seq<T>, Fault>
    decreases |labels|
  {
    if labels == [] then Success([])
    else
      var init :- Collect(entry, labels[..|labels| - 1]);
      var last :- entry(labels[|labels| - 1]);
      Success(init + last)
  }

  /** Run `x`, then `y`, and concatenate their entries. */
  function ThenAppend<T>(x: Result<seq<T>, Fault>, y: Result<seq<T>, Fault>): Result<seq<T>, Fault> {
    var u :- x;
    var v :- y;
    Success(u + v)
  }

  /** A scan over `a + b` is the scan over `a` followed by the scan over `b`:
      entries appear in module order, and the first failure wins. */
  lemma {:induction false} CollectAppend<T>(entry: string -> Result<seq<T>, Fault>, a: seq<string>, b: seq<string>)
    ensures Collect(entry, a + b) == ThenAppend(Collect(entry, a), Collect(entry, b))
    decreases |b|
  {
    if b == [] {
      assert a + b == a;
      match Collect(entry, a)
      case Failure(_) =>
      case Success(u) =>
        assert u + [] == u;
    } else {
      var b' := b[..|b| - 1];
      var z := b[|b| - 1];
      assert (a + b)[..|a + b| - 1] == a + b';
      assert (a + b)[|a + b| - 1] == z;
      CollectAppend(entry, a, b');
      match Collect(entry, a)
      case Failure(_) =>
      case Success(u) =>
        match Collect(entry, b')
        case Failure(_) =>
        case Success(v) =>
          match entry(z)
          case Failure(_) =>
          case Success(w) =>
            assert u + v + w == u + (v + w);
    }
  }

  /** One more label extends a scan of a prefix by that label's entries. */
  lemma CollectSnoc<T>(entry: string -> Result<seq<T>, Fault>, labels: seq<string>, j: nat)
    requires j < |labels|
    ensures Collect(entry, labels[..j + 1]) == ThenAppend(Collect(entry, labels[..j]), entry(labels[j]))
  {
    assert labels[..j + 1][..j] == labels[..j];
  }

  /** Once a prefix of the labels fails, the whole scan fails with its fault. */
  lemma CollectFailureSticks<T>(entry: string -> Result<seq<T>, Fault>, labels: seq<string>, j: nat)
    requires j <= |labels|
    requires Collect(entry, labels[..j]).Failure?
    ensures Collect(entry, labels).Failure?
    ensures Collect(entry, labels) == Collect(entry, labels[..j])
  {
    CollectAppend(entry, labels[..j], labels[j..]);
    assert labels[..j] + labels[j..] == labels;
  }

  /** A label that contributes nothing can be dropped from a scan. */
  lemma CollectSkipsSilent<T>(entry: string -> Result<seq<T>, Fault>, a: seq<string>, m: string, b: seq<string>)
    requires entry(m) == Success([])
    ensures Collect(entry, a + [m] + b) == Collect(entry, a + b)
  {
    CollectAppend(entry, a + [m], b);
    CollectAppend(entry, a, [m]);
    CollectAppend(entry, a, b);
    assert Collect(entry, [m]) == Success([]) by {
      assert [m][..0] == [] && [m][0] == m;
      assert Collect(entry, [m][..0]) == Success([]);
      var none: seq<T> := [];
      assert none + none == none;
    }
    match Collect(entry, a)
    case Failure(_) =>
    case Success(u) =>
      assert u + [] == u;
  }

  /** What one module label adds to the legacy seeds of its path (:164-176). */
  function GTSeedEntry(t: PSet, moduleLabel: string): Result<seq<(bool, string)>, Fault> {
    if IsDisabled(moduleLabel) then Success([])
    else
      var info :- ResolveModule(t, CanonicalModuleName(moduleLabel));
      if info.className != GTSeedModuleType || info.pset == EmptyPSet then Success([])
      else
        var tech :- GetBool(info.pset, "L1TechTriggerSeeding");
        var expression :- GetString(info.pset, "L1SeedsLogicalExpression");
        Success([(tech, expression)])
  }

  /** What one module label adds to the stage-2 seeds of its path (:186-201). */
  function L1TSeedEntry(t: PSet, moduleLabel: string): Result<seq<string>, Fault> {
    if IsDisabled(moduleLabel) then Success([])
    else
      var info :- ResolveModule(t, CanonicalModuleName(moduleLabel));
      if info.className != L1TSeedModuleType || info.pset == EmptyPSet then Success([])
      else
        var objectMap :- GetInputTagLabel(info.pset, "L1GlobalInputTag");
        if objectMap == EmulatedObjectMapLabel then Success([])
        else
          var expression :- GetString(info.pset, "L1SeedsLogicalExpression");
          Success([expression])
  }

  function GTSeedsOf(t: PSet, labels: seq<string>): Result<seq<(bool, string)>, Fault> {
    Collect(m => GTSeedEntry(t, m), labels)
  }

  function L1TSeedsOf(t: PSet, labels: seq<string>): Result<seq<string>, Fault> {
    Collect(m => L1TSeedEntry(t, m), labels)
  }

  /** An enabled stage-2 seed module that reads the emulator's object map. */
  predicate IsEmulatedL1TSeed(t: PSet, moduleLabel: string) {
    && !IsDisabled(moduleLabel)
    && ResolveModule(t, moduleLabel).Success?
    && ResolveModule(t, moduleLabel).value.className == L1TSeedModuleType
    && GetInputTagLabel(ResolveModule(t, moduleLabel).value.pset, "L1GlobalInputTag") == Success(EmulatedObjectMapLabel)
  }

  /** Disabled modules are not scanned for seeds: removing a "-name" label
      from a path changes neither seed list. */
  lemma DisabledModuleAddsNoSeed(t: PSet, a: seq<string>, m: string, b: seq<string>)
    requires IsDisabled(m)
    ensures GTSeedsOf(t, a + [m] + b) == GTSeedsOf(t, a + b)
    ensures L1TSeedsOf(t, a + [m] + b) == L1TSeedsOf(t, a + b)
  {
    CollectSkipsSilent(m => GTSeedEntry(t, m), a, m, b);
    CollectSkipsSilent(m => L1TSeedEntry(t, m), a, m, b);
  }

  /** A stage-2 seed module reading the emulator's object map adds no entry. */
  lemma EmulatedL1TSeedIgnored(t: PSet, a: seq<string>, m: string, b: seq<string>)
    requires IsEmulatedL1TSeed(t, m)
    ensures L1TSeedsOf(t, a + [m] + b) == L1TSeedsOf(t, a + b)
  {
    KnownModuleHasParameters(t, m);
    assert L1TSeedEntry(t, m) == Success([]);
    CollectSkipsSilent(m => L1TSeedEntry(t, m), a, m, b);
  }

  /** Seeds appear in module order: the seeds of a path split at any point
      are the seeds of the first part followed by those of the second. */
  lemma SeedsInModuleOrder(t: PSet, a: seq<string>, b: seq<string>)
    ensures GTSeedsOf(t, a + b) == ThenAppend(GTSeedsOf(t, a), GTSeedsOf(t, b))
    ensures L1TSeedsOf(t, a + b) == ThenAppend(L1TSeedsOf(t, a), L1TSeedsOf(t, b))
  {
    CollectAppend(m => GTSeedEntry(t, m), a, b);
    CollectAppend(m => L1TSeedEntry(t, m), a, b);
  }

  // ===========================================================================
  // Provenance (:91-113)
  // ===========================================================================

  function ProcessNameOf(t: PSet): string {
    StringOr(t, "@process_name", "")
  }

  /** The global tag, from the `GlobalTag` parameter set, or from
      `PoolDBESSource@GlobalTag` only when `GlobalTag` is absent. */
  function GlobalTagOf(t: PSet): (r: Result<string, Fault>)
    ensures ExistsAs(t, "GlobalTag", PSetKind) ==>
              r == Success(StringOr(t.entries["GlobalTag"].p, "globaltag", ""))
    ensures Exists(t, "GlobalTag") && !ExistsAs(t, "GlobalTag", PSetKind) ==>
              r == Failure(WrongParameterType("GlobalTag"))
    ensures !Exists(t, "GlobalTag") && ExistsAs(t, "PoolDBESSource@GlobalTag", PSetKind) ==>
              r == Success(StringOr(t.entries["PoolDBESSource@GlobalTag"].p, "globaltag", ""))
    ensures !Exists(t, "GlobalTag") && Exists(t, "PoolDBESSource@GlobalTag") && !ExistsAs(t, "PoolDBESSource@GlobalTag", PSetKind) ==>
              r == Failure(WrongParameterType("PoolDBESSource@GlobalTag"))
    ensures !Exists(t, "GlobalTag") && !Exists(t, "PoolDBESSource@GlobalTag") ==> r == Success("")
  {
    if Exists(t, "GlobalTag") then
      var g :- GetPSet(t, "GlobalTag");
      Success(StringOr(g, "globaltag", ""))
    else if Exists(t, "PoolDBESSource@GlobalTag") then
      var g :- GetPSet(t, "PoolDBESSource@GlobalTag");
      Success(StringOr(g, "globaltag", ""))
    else
      Success("")
  }

  /** Whatever `PoolDBESSource@GlobalTag` holds is ignored once `GlobalTag` exists. */
  lemma GlobalTagPrecedence(t: PSet, v: Value)
    requires Exists(t, "GlobalTag")
    ensures GlobalTagOf(PSet(t.entries["PoolDBESSource@GlobalTag" := v])) == GlobalTagOf(t)
  {
    var t' := PSet(t.entries["PoolDBESSource@GlobalTag" := v]);
    assert "GlobalTag" != "PoolDBESSource@GlobalTag";
    assert t'.entries["GlobalTag"] == t.entries["GlobalTag"];
  }

  function TableNameOf(t: PSet): string {
    if ExistsAs(t, "HLTConfigVersion", PSetKind) then StringOr(t.entries["HLTConfigVersion"].p, "tableName", "")
    else ""
  }

  /** The process name, global tag, table name and trigger names :91-121 store. */
  ghost predicate ProvenanceOf(t: PSet, processName: string, globalTag: string, tableName: string, triggerNames: seq<string>) {
    && processName == ProcessNameOf(t)
    && GlobalTagOf(t) == Success(globalTag)
    && tableName == TableNameOf(t)
    && triggerNames == TriggerNamesOf(t)
  }

  // ===========================================================================
  // Bounds-checked access and one-past-the-end lookups
  // ===========================================================================

  /** `std::vector::at`: the element, or `std::out_of_range`. */
  function At<T>(s: seq<T>, i: nat): (r: Result<T, Fault>)
    ensures r.Success? <==> i < |s|
    ensures r.Success? ==> r.value == s[i]
    ensures r.Failure? ==> r.error == IndexOutOfRange
  {
    if i < |s| then Success(s[i]) else Failure(IndexOutOfRange)
  }

  /** A position lookup through an index map, answering `|s|` (the size of
      the indexed sequence) for a name the map does not hold. */
  function Find(index: map<string, nat>, s: seq<string>, x: string): (r: nat)
    requires index == LastIndexMap(s)
    ensures r <= |s|
    ensures r < |s| <==> x in s
    ensures r < |s| ==> IsLastIndex(s, r, x)
  {
    LastIndexMapFinds(s);
    if x in index then index[x] else |s|
  }

  /** On distinct names, finding the name at a position gives the position back. */
  lemma FindInverse(index: map<string, nat>, s: seq<string>, i: nat)
    requires index == LastIndexMap(s)
    requires Distinct(s)
    requires i < |s|
    ensures Find(index, s, s[i]) == i
  {
    LastIndexMapFinds(s);
    LastIndexOfDistinct(index, s, i);
  }

  /** :148-157: `triggerIndex[name] = i` for each path and, per path,
      `moduleIndex[i][label] = j` for each module on it. */
  method IndexPaths(names: seq<string>, paths: seq<seq<string>>)
    returns (byName: map<string, nat>, byPath: seq<map<string, nat>>)
    requires |paths| == |names|
    ensures byName == LastIndexMap(names)
    ensures |byPath| == |names|
    ensures forall i :: 0 <= i < |byPath| ==> byPath[i] == LastIndexMap(paths[i])
  {
    byName := map[];
    byPath := [];
    for i := 0 to |names|
      invariant byName == LastIndexMap(names[..i])
      invariant |byPath| == i
      invariant forall k :: 0 <= k < i ==> byPath[k] == LastIndexMap(paths[k])
    {
      assert names[..i + 1][..i] == names[..i];
      byName := byName[names[i] := i];
      var positions := BuildIndex(paths[i]);
      byPath := byPath + [positions];
    }
    assert names[..|names|] == names;
  }

  // ===========================================================================
  // Streams and datasets (:205-231)
  // ===========================================================================

  /** The `streams` parameter set, or the empty set when there is none. */
  function StreamsOf(t: PSet): PSet {
    if ExistsAs(t, "streams", PSetKind) then t.entries["streams"].p else EmptyPSet
  }

  /** The `datasets` parameter set, or the empty set when there is none. */
  function DatasetsOf(t: PSet): PSet {
    if ExistsAs(t, "datasets", PSetKind) then t.entries["datasets"].p else EmptyPSet
  }

  /** Names strictly sorted, indexed by position, one content list per name. */
  ghost predicate GroupIndexed(names: seq<string>, index: map<string, nat>, contents: seq<seq<string>>) {
    && StrictlySorted(names)
    && index == LastIndexMap(names)
    && |contents| == |names|
  }

  /** `names`, `index` and `contents` are what :206-216 builds from `g`. */
  ghost predicate GroupsOf(g: PSet, names: seq<string>, index: map<string, nat>, contents: seq<seq<string>>) {
    && GroupIndexed(names, index, contents)
    && (forall n :: n in names <==> ExistsAs(g, n, StringsKind))
    && (forall i :: 0 <= i < |names| ==> contents[i] == SortStrings(StringsOr(g, names[i], [])))
  }

  /** Strictly sorted sequences with the same elements are equal. */
  lemma StrictlySortedSameElements(a: seq<string>, b: seq<string>)
    requires StrictlySorted(a) && StrictlySorted(b)
    requires forall x :: x in a <==> x in b
    ensures a == b
  {
    assert Distinct(a) && Distinct(b);
    DistinctIffSingleOccurrences(a);
    DistinctIffSingleOccurrences(b);
    forall x ensures multiset(a)[x] == multiset(b)[x] {
      assert x in a <==> x in multiset(a);
      assert x in b <==> x in multiset(b);
    }
    assert multiset(a) == multiset(b);
    SortedPermutationUnique(a, b);
  }

  /** The groups are a function of the parameter set alone: whatever order
      `getParameterNamesForType` lists the names in, the result is the same. */
  lemma GroupsDetermined(g: PSet, names: seq<string>, index: map<string, nat>, contents: seq<seq<string>>,
                         names': seq<string>, index': map<string, nat>, contents': seq<seq<string>>)
    requires GroupsOf(g, names, index, contents)
    requires GroupsOf(g, names', index', contents')
    ensures names == names' && index == index' && contents == contents'
  {
    StrictlySortedSameElements(names, names');
  }

  /** The loop of :206-216 (and of :220-230): the vstring entries of a
      parameter set, their names sorted, each name's position recorded and
      each list sorted. */
  method SortedGroups(g: PSet) returns (names: seq<string>, index: map<string, nat>, contents: seq<seq<string>>)
    ensures GroupsOf(g, names, index, contents)
    ensures forall i :: 0 <= i < |names| ==> names[i] in index && index[names[i]] == i
  {
    var found := NamesOfKind(g, StringsKind);
    names := SortStrings(found);
    SortDistinct(found);
    index := BuildIndex(names);
    contents := SortedContents(g, names);
    IndexOfSorted(names);
  }

  /** The inner loop of :212-216: each name's list of entries, sorted. */
  method SortedContents(g: PSet, names: seq<string>) returns (contents: seq<seq<string>>)
    ensures |contents| == |names|
    ensures forall i :: 0 <= i < |names| ==> contents[i] == SortStrings(StringsOr(g, names[i], []))
  {
    contents := MapEach(names, n => SortStrings(StringsOr(g, n, [])));
  }

  /** Each of strictly sorted names is recorded at its own position. */
  lemma IndexOfSorted(names: seq<string>)
    requires StrictlySorted(names)
    ensures forall i :: 0 <= i < |names| ==> names[i] in LastIndexMap(names) && LastIndexMap(names)[names[i]] == i
  {
    var index := LastIndexMap(names);
    LastIndexMapFinds(names);
    forall i | 0 <= i < |names|
      ensures names[i] in index && index[names[i]] == i
    {
      LastIndexOfDistinct(index, names, i);
    }
  }

  // ===========================================================================
  // Prescale table (:233-283)
  // ===========================================================================

  /** `HLTPrescaleTable`: the index of the default set, the set labels, and
      for each path name its prescale values, one per set. */
  datatype PrescaleTable = PrescaleTable(defaultSet: nat, labels: seq<string>, table: map<string, seq<nat>>) {
    /** `HLTPrescaleTable::size()`: the number of prescale sets. */
    function Size(): nat {
      |labels|
    }
  }

  const EmptyPrescaleTable: PrescaleTable := PrescaleTable(0, [], map[])

  /** The parameter set holding the prescales: `PrescaleService`, else `PrescaleTable`. */
  function PrescaleSource(t: PSet): Option<PSet> {
    if ExistsAs(t, "PrescaleService", PSetKind) then Some(t.entries["PrescaleService"].p)
    else if ExistsAs(t, "PrescaleTable", PSetKind) then Some(t.entries["PrescaleTable"].p)
    else None
  }

  /** The loop of :257-260: the last position holding the default label, 0 if none. */
  function DefaultSetIndex(labels: seq<string>, defaultLabel: string): nat
    decreases |labels|
  {
    if labels == [] then 0
    else if labels[|labels| - 1] == defaultLabel then |labels| - 1
    else DefaultSetIndex(labels[..|labels| - 1], defaultLabel)
  }

  lemma {:induction false} DefaultSetIsLastMatch(labels: seq<string>, defaultLabel: string)
    ensures defaultLabel in labels ==> IsLastIndex(labels, DefaultSetIndex(labels, defaultLabel), defaultLabel)
    ensures defaultLabel !in labels ==> DefaultSetIndex(labels, defaultLabel) == 0
    decreases |labels|
  {
    if labels != [] && labels[|labels| - 1] != defaultLabel {
      var init := labels[..|labels| - 1];
      DefaultSetIsLastMatch(init, defaultLabel);
      assert labels == init + [labels[|labels| - 1]];
      assert defaultLabel in labels <==> defaultLabel in init;
    }
  }

  /** One row of `prescaleTable`: its `pathName` and its `prescales`. In
      `table[pathName] = prescales` (:266-267) C++17 evaluates the right
      operand first, so `prescales` is read, and may throw, before `pathName`. */
  function PrescaleRow(row: PSet): (r: Result<(string, seq<nat>), Fault>)
    ensures r.Success? <==> ExistsAs(row, "prescales", UintsKind) && ExistsAs(row, "pathName", StringKind)
    ensures r.Success? ==> r.value == (RowPath(row), RowValues(row))
    ensures !ExistsAs(row, "prescales", UintsKind) ==> r == Failure(Lookup(row, "prescales", UintsKind).error)
    ensures ExistsAs(row, "prescales", UintsKind) && !ExistsAs(row, "pathName", StringKind) ==>
              r == Failure(Lookup(row, "pathName", StringKind).error)
  {
    var values :- GetUints(row, "prescales");
    var path :- GetString(row, "pathName");
    Success((path, values))
  }

  /** A row holding neither parameter fails on `prescales`, the one read first. */
  lemma PrescalesReadFirst()
    ensures PrescaleRow(PSet(map[])) == Failure(MissingParameter("prescales"))
  {
    assert !ExistsAs(PSet(map[]), "prescales", UintsKind);
  }

  /** The loop of :265-268: `table[pathName] = prescales` row by row. */
  function RowsTable(rows: seq<PSet>): Result<map<string, seq<nat>>, Fault>
    decreases |rows|
  {
    if rows == [] then Success(map[])
    else
      var table :- RowsTable(rows[..|rows| - 1]);
      var row :- PrescaleRow(rows[|rows| - 1]);
      Success(table[row.0 := row.1])
  }

  /** The path a row names, "" when it names none. */
  function RowPath(row: PSet): string {
    StringOr(row, "pathName", "")
  }

  /** The prescales a row holds, none when it holds none. */
  function RowValues(row: PSet): seq<nat> {
    if ExistsAs(row, "prescales", UintsKind) then row.entries["prescales"].us else []
  }

  /** The paths the rows name, in row order. */
  function RowPaths(rows: seq<PSet>): (r: seq<string>)
    ensures |r| == |rows|
    ensures forall i :: 0 <= i < |rows| ==> r[i] == RowPath(rows[i])
    decreases |rows|
  {
    if rows == [] then [] else RowPaths(rows[..|rows| - 1]) + [RowPath(rows[|rows| - 1])]
  }

  /** The rows are read completely or not at all. */
  lemma {:induction false} RowsTableSucceeds(rows: seq<PSet>)
    ensures RowsTable(rows).Success? <==> forall i :: 0 <= i < |rows| ==> PrescaleRow(rows[i]).Success?
    decreases |rows|
  {
    if rows != [] {
      var init := rows[..|rows| - 1];
      RowsTableSucceeds(init);
      assert forall i :: 0 <= i < |init| ==> rows[i] == init[i];
    }
  }

  /** One row more: the earlier rows' table with the last row's path set to its prescales. */
  lemma RowsTableStep(rows: seq<PSet>)
    requires rows != [] && RowsTable(rows).Success?
    ensures RowsTable(rows[..|rows| - 1]).Success?
    ensures RowsTable(rows).value == RowsTable(rows[..|rows| - 1]).value[RowPath(rows[|rows| - 1]) := RowValues(rows[|rows| - 1])]
  {
    var row := PrescaleRow(rows[|rows| - 1]);
    assert RowsTable(rows[..|rows| - 1]).Success? && row.Success?;
    assert row.value == (RowPath(rows[|rows| - 1]), RowValues(rows[|rows| - 1]));
  }

  /** The table has one key per path some row names. */
  lemma {:induction false} RowsTableKeys(rows: seq<PSet>)
    requires RowsTable(rows).Success?
    ensures forall k :: k in RowsTable(rows).value <==> k in RowPaths(rows)
    decreases |rows|
  {
    if rows != [] {
      var init := rows[..|rows| - 1];
      RowsTableStep(rows);
      RowsTableKeys(init);
      assert RowPaths(rows) == RowPaths(init) + [RowPath(rows[|rows| - 1])];
    }
  }

  /** The table has one key per path some row names, holding the prescales of
      the last row naming it. */
  lemma {:induction false} RowsTableLastRowWins(rows: seq<PSet>)
    requires RowsTable(rows).Success?
    ensures forall k :: k in RowsTable(rows).value <==> k in RowPaths(rows)
    ensures forall i :: 0 <= i < |rows| && IsLastIndex(RowPaths(rows), i, RowPath(rows[i])) ==>
              RowsTable(rows).value[RowPath(rows[i])] == RowValues(rows[i])
    decreases |rows|
  {
    RowsTableKeys(rows);
    if rows != [] {
      var init := rows[..|rows| - 1];
      var last := |rows| - 1;
      RowsTableStep(rows);
      RowsTableLastRowWins(init);
      var paths, initPaths := RowPaths(rows), RowPaths(init);
      forall i | 0 <= i < |rows| && IsLastIndex(paths, i, RowPath(rows[i]))
        ensures RowsTable(rows).value[RowPath(rows[i])] == RowValues(rows[i])
      {
        if i < last {
          assert paths[last] != paths[i];
          forall j | i < j < last
            ensures initPaths[j] != RowPath(init[i])
          {
            assert init[j] == rows[j] && init[i] == rows[i];
            assert paths[j] != paths[i];
          }
          assert IsLastIndex(initPaths, i, RowPath(init[i]));
        }
      }
    }
  }

  /** The prescale table `extract()` builds, or the exception a malformed row raises. */
  function PrescaleTableOf(t: PSet): Result<PrescaleTable, Fault> {
    match PrescaleSource(t)
    case None => Success(EmptyPrescaleTable)
    case Some(ps) =>
      var labels := StringsOr(ps, "lvl1Labels", []);
      var defaultSet := DefaultSetIndex(labels, StringOr(ps, "lvl1DefaultLabel", "default"));
      var table :- if ExistsAs(ps, "prescaleTable", PSetsKind) then RowsTable(ps.entries["prescaleTable"].ps)
                   else Success(map[]);
      Success(if |labels| > 0 then PrescaleTable(defaultSet, labels, table) else EmptyPrescaleTable)
  }

  /** `PrescaleService` takes precedence: whatever `PrescaleTable` holds is ignored. */
  lemma PrescaleServiceFirst(t: PSet, v: Value)
    requires ExistsAs(t, "PrescaleService", PSetKind)
    ensures PrescaleTableOf(PSet(t.entries["PrescaleTable" := v])) == PrescaleTableOf(t)
  {
    var t' := PSet(t.entries["PrescaleTable" := v]);
    assert "PrescaleService" != "PrescaleTable";
    assert t'.entries["PrescaleService"] == t.entries["PrescaleService"];
    assert PrescaleSource(t') == PrescaleSource(t);
  }

  /** The shape of an extracted prescale table: empty without a prescale
      configuration or without set labels; otherwise the labels as given, the
      default set at the last label equal to `lvl1DefaultLabel` (itself
      "default" when absent), or 0 when no label matches, and the table keyed
      by the rows' path names, each holding the prescales of the last row
      that names it. */
  lemma PrescaleTableShape(t: PSet)
    requires PrescaleTableOf(t).Success?
    ensures PrescaleSource(t).None? ==> PrescaleTableOf(t).value == EmptyPrescaleTable
    ensures PrescaleSource(t).Some? ==>
              var ps := PrescaleSource(t).value;
              var labels := StringsOr(ps, "lvl1Labels", []);
              var d := if ExistsAs(ps, "lvl1DefaultLabel", StringKind) then ps.entries["lvl1DefaultLabel"].s else "default";
              var r := PrescaleTableOf(t).value;
              && (|labels| == 0 ==> r == EmptyPrescaleTable)
              && (|labels| > 0 ==> r.labels == labels && r.Size() == |labels|)
              && (|labels| > 0 && d in labels ==> IsLastIndex(labels, r.defaultSet, d))
              && (|labels| > 0 && d !in labels ==> r.defaultSet == 0)
    ensures PrescaleSource(t).Some? ==>
              var ps := PrescaleSource(t).value;
              var rows := if ExistsAs(ps, "prescaleTable", PSetsKind) then ps.entries["prescaleTable"].ps else [];
              var r := PrescaleTableOf(t).value;
              |StringsOr(ps, "lvl1Labels", [])| > 0 ==>
                && (forall k :: k in r.table <==> k in RowPaths(rows))
                && (forall i :: 0 <= i < |rows| && IsLastIndex(RowPaths(rows), i, RowPath(rows[i])) ==>
                      r.table[RowPath(rows[i])] == RowValues(rows[i]))
  {
    if PrescaleSource(t).Some? {
      var ps := PrescaleSource(t).value;
      DefaultSetIsLastMatch(StringsOr(ps, "lvl1Labels", []), StringOr(ps, "lvl1DefaultLabel", "default"));
      var rows := if ExistsAs(ps, "prescaleTable", PSetsKind) then ps.entries["prescaleTable"].ps else [];
      assert RowsTable([]) == Success(map[]);
      assert RowsTable(rows).Success?;
      RowsTableLastRowWins(rows);
    }
  }

  /** The loops of :255-274 on the prescale parameter set. */
  method ExtractPrescaleTable(t: PSet) returns (r: Result<PrescaleTable, Fault>)
    ensures r == PrescaleTableOf(t)
  {
    var source := PrescaleSource(t);
    if source.None? {
      return Success(EmptyPrescaleTable);
    }
    var ps := source.value;
    var defaultLabel := "default";
    if ExistsAs(ps, "lvl1DefaultLabel", StringKind) {
      defaultLabel := ps.entries["lvl1DefaultLabel"].s;
    }
    var labels: seq<string> := [];
    if ExistsAs(ps, "lvl1Labels", StringsKind) {
      labels := ps.entries["lvl1Labels"].ss;
    }
    var defaultSet := 0;
    for i := 0 to |labels|
      invariant defaultSet == DefaultSetIndex(labels[..i], defaultLabel)
    {
      assert labels[..i + 1][..i] == labels[..i];
      if labels[i] == defaultLabel {
        defaultSet := i;
      }
    }
    assert labels[..|labels|] == labels;
    var table: map<string, seq<nat>> := map[];
    if ExistsAs(ps, "prescaleTable", PSetsKind) {
      var rows := ps.entries["prescaleTable"].ps;
      for i := 0 to |rows|
        invariant RowsTable(rows[..i]) == Success(table)
      {
        assert rows[..i + 1][..i] == rows[..i];
        var row := PrescaleRow(rows[i]);
        if row.Failure? {
          assert RowsTable(rows[..i + 1]).Failure?;
          RowsFailureSticks(rows, i + 1);
          assert rows[..|rows|] == rows;
          return Failure(row.error);
        }
        table := table[row.value.0 := row.value.1];
      }
      assert rows[..|rows|] == rows;
    }
    if |labels| > 0 {
      r := Success(PrescaleTable(defaultSet, labels, table));
    } else {
      r := Success(EmptyPrescaleTable);
    }
  }

  /** Once a row fails to read, reading more rows fails with the same error. */
  lemma {:induction false} RowsFailureSticks(rows: seq<PSet>, i: nat)
    requires i <= |rows|
    requires RowsTable(rows[..i]).Failure?
    ensures RowsTable(rows) == RowsTable(rows[..i])
    decreases |rows| - i
  {
    if i < |rows| {
      assert rows[..i + 1][..i] == rows[..i];
      RowsFailureSticks(rows, i + 1);
    } else {
      assert rows[..i] == rows;
    }
  }

  /** `FractionalPrescale`, as the exact ratio `numerator / denominator`. */
  datatype Fraction = Fraction(numerator: nat, denominator: nat)

  /** The two value views of :278-283: the same keys as the table, the same
      number of values per key, each value converted from the same unsigned
      cell, so both views read the same number. */
  ghost predicate ViewsAgree(table: map<string, seq<nat>>, asDouble: map<string, seq<real>>, asFraction: map<string, seq<Fraction>>) {
    && asDouble.Keys == table.Keys
    && asFraction.Keys == table.Keys
    && forall k :: k in table ==>
         && |asDouble[k]| == |table[k]|
         && |asFraction[k]| == |table[k]|
         && forall j :: 0 <= j < |table[k]| ==>
              && asDouble[k][j] == table[k][j] as real
              && asFraction[k][j] == Fraction(table[k][j], 1)
  }

  /** The loop of :278-283 over the prescale table. */
  method PrescaleViews(table: map<string, seq<nat>>) returns (asDouble: map<string, seq<real>>, asFraction: map<string, seq<Fraction>>)
    ensures ViewsAgree(table, asDouble, asFraction)
    ensures forall k, j :: k in asDouble && 0 <= j < |asDouble[k]| ==>
              asDouble[k][j] == asFraction[k][j].numerator as real / asFraction[k][j].denominator as real
  {
    asDouble, asFraction := map[], map[];
    var rest := table.Keys;
    while rest != {}
      invariant rest <= table.Keys
      invariant asDouble.Keys == asFraction.Keys == table.Keys - rest
      invariant forall k :: k in asDouble ==>
                  && |asDouble[k]| == |table[k]| && |asFraction[k]| == |table[k]|
                  && forall j :: 0 <= j < |table[k]| ==>
                       asDouble[k][j] == table[k][j] as real && asFraction[k][j] == Fraction(table[k][j], 1)
      decreases rest
    {
      var key :| key in rest;
      var values := table[key];
      asDouble := asDouble[key := seq(|values|, j requires 0 <= j < |values| => values[j] as real)];
      asFraction := asFraction[key := seq(|values|, j requires 0 <= j < |values| => Fraction(values[j], 1))];
      rest := rest - {key};
    }
  }

  // ===========================================================================
  // L1T type (:285-310)
  // ===========================================================================

  const Stage1ModuleTypes: set<string> := {"HLTLevel1GTSeed", "L1GlobalTrigger"}
  const Stage2ModuleTypes: set<string> := {"HLTL1TSeed", "L1TGlobalProducer"}

  /** All module labels of the process, from `@all_modules`. */
  function AllModulesOf(t: PSet): seq<string> {
    StringsOr(t, "@all_modules", [])
  }

  /** The class of each module, as `moduleType` reports it. */
  function ModuleTypesOf(t: PSet, modules: seq<string>): Result<seq<string>, Fault> {
    Collect(m => ModuleTypeEntry(t, m), modules)
  }

  /** `moduleType(label)` as one entry of a scan. */
  function ModuleTypeEntry(t: PSet, moduleLabel: string): Result<seq<string>, Fault> {
    var info :- ResolveModule(t, CanonicalModuleName(moduleLabel));
    Success([info.className])
  }

  lemma {:induction false} ModuleTypesAligned(t: PSet, modules: seq<string>)
    requires ModuleTypesOf(t, modules).Success?
    ensures |ModuleTypesOf(t, modules).value| == |modules|
    ensures forall i :: 0 <= i < |modules| ==>
              && ResolveModule(t, CanonicalModuleName(modules[i])).Success?
              && ModuleTypesOf(t, modules).value[i] == ResolveModule(t, CanonicalModuleName(modules[i])).value.className
    decreases |modules|
  {
    if modules != [] {
      var init := modules[..|modules| - 1];
      var z := modules[|modules| - 1];
      var entry := m => ModuleTypeEntry(t, m);
      assert ModuleTypesOf(t, modules) == Collect(entry, modules);
      var u := Collect(entry, init).value;
      var w := entry(z).value;
      assert ModuleTypesOf(t, modules).value == u + w;
      ModuleTypesAligned(t, init);
      assert forall i :: 0 <= i < |init| ==> modules[i] == init[i];
    }
  }

  /** How many of `types` belong to `kinds`. */
  function CountOfTypes(types: seq<string>, kinds: set<string>): nat
    decreases |types|
  {
    if types == [] then 0
    else CountOfTypes(types[..|types| - 1], kinds) + (if types[|types| - 1] in kinds then 1 else 0)
  }

  lemma {:induction false} CountPositiveIffPresent(types: seq<string>, kinds: set<string>)
    ensures CountOfTypes(types, kinds) > 0 <==> exists i :: 0 <= i < |types| && types[i] in kinds
    decreases |types|
  {
    if types != [] {
      var init := types[..|types| - 1];
      CountPositiveIffPresent(init, kinds);
      assert forall i :: 0 <= i < |init| ==> types[i] == init[i];
      if exists i :: 0 <= i < |types| && types[i] in kinds {
        var i :| 0 <= i < |types| && types[i] in kinds;
        if i < |init| {
          assert init[i] in kinds;
        }
      }
    }
  }

  /** The classification of :298-310: unknown (0) when neither or both kinds
      of L1 module are present, legacy (1) or stage-2 (2) when only that kind is. */
  function L1TType(stage1: nat, stage2: nat): (r: nat)
    ensures r <= 2
    ensures r == 0 <==> (stage1 == 0 <==> stage2 == 0)
    ensures r == 1 <==> stage1 > 0 && stage2 == 0
    ensures r == 2 <==> stage2 > 0 && stage1 == 0
  {
    if stage1 + stage2 == 0 then 0
    else if stage1 > 0 && stage2 > 0 then 0
    else if stage1 > 0 then 1
    else 2
  }

  /** `kind` is the L1 type :285-310 derives from the classes of all modules of `t`. */
  ghost predicate L1TTypeOf(t: PSet, kind: nat) {
    var types := ModuleTypesOf(t, AllModulesOf(t));
    && types.Success?
    && kind == L1TType(CountOfTypes(types.value, Stage1ModuleTypes), CountOfTypes(types.value, Stage2ModuleTypes))
  }

  /** The type `extract()` derives from the classes of all modules. */
  lemma L1TTypeOfModules(types: seq<string>)
    ensures var r := L1TType(CountOfTypes(types, Stage1ModuleTypes), CountOfTypes(types, Stage2ModuleTypes));
            var legacy := exists i :: 0 <= i < |types| && types[i] in Stage1ModuleTypes;
            var stage2 := exists i :: 0 <= i < |types| && types[i] in Stage2ModuleTypes;
            && (r == 0 <==> legacy == stage2)
            && (r == 1 <==> legacy && !stage2)
            && (r == 2 <==> stage2 && !legacy)
  {
    CountPositiveIffPresent(types, Stage1ModuleTypes);
    CountPositiveIffPresent(types, Stage2ModuleTypes);
  }

  const TwoTo32: nat := 0x1_0000_0000

  /** :298-310 as written, with `stage1 + stage2` and `stage1 * stage2`
      computed in 32-bit `unsigned int`. */
  function L1TTypeAsWritten(stage1: nat, stage2: nat): nat
    requires stage1 < TwoTo32 && stage2 < TwoTo32
  {
    if (stage1 + stage2) % TwoTo32 == 0 then 0
    else if (stage1 * stage2) % TwoTo32 != 0 then 0
    else if stage1 > 0 then 1
    else 2
  }

  /** 65536 legacy and 65536 stage-2 modules: the product wraps to 0, so the
      code as written reports legacy where both kinds are present. */
  lemma L1TTypeProductWraps()
    ensures L1TTypeAsWritten(65536, 65536) == 1
    ensures L1TType(65536, 65536) == 0
  {
    assert 65536 * 65536 == TwoTo32;
  }

  /** Below the wrap-around, the code as written agrees with the classification. */
  lemma L1TTypeAsWrittenAgrees(stage1: nat, stage2: nat)
    requires stage1 + stage2 < TwoTo32 && stage1 * stage2 < TwoTo32
    ensures L1TTypeAsWritten(stage1, stage2) == L1TType(stage1, stage2)
  {
  }

  // ===========================================================================
  // Per-path tables (:132-203)
  // ===========================================================================

  /** One row per trigger path, computed by `row` from the path's module
      labels, in path order; the first path whose row fails ends the scan. */
  function ByPath<T>(row: seq<string> -> Result<T, Fault>, paths: seq<seq<string>>): (r: Result<seq<T>, Fault>)
    ensures r.Success? ==> |r.value| == |paths|
    decreases |paths|
  {
    if paths == [] then Success([])
    else
      var init :- ByPath(row, paths[..|paths| - 1]);
      var last :- row(paths[|paths| - 1]);
      Success(init + [last])
  }

  /** A table is built exactly when every path's row is, and then holds each
      path's row at the path's position. */
  lemma {:induction false} ByPathRows<T>(row: seq<string> -> Result<T, Fault>, paths: seq<seq<string>>)
    ensures ByPath(row, paths).Success? <==> forall i :: 0 <= i < |paths| ==> row(paths[i]).Success?
    ensures ByPath(row, paths).Success? ==>
              forall i :: 0 <= i < |paths| ==> row(paths[i]) == Success(ByPath(row, paths).value[i])
    decreases |paths|
  {
    if paths != [] {
      var init := paths[..|paths| - 1];
      ByPathRows(row, init);
      assert forall i :: 0 <= i < |init| ==> paths[i] == init[i];
    }
  }

  /** Once the table of the first paths fails, the whole table fails with its fault. */
  lemma {:induction false} ByPathFailureSticks<T>(row: seq<string> -> Result<T, Fault>, paths: seq<seq<string>>, i: nat)
    requires i <= |paths|
    requires ByPath(row, paths[..i]).Failure?
    ensures ByPath(row, paths) == ByPath(row, paths[..i])
    decreases |paths|
  {
    if i < |paths| {
      var init := paths[..|paths| - 1];
      assert init[..i] == paths[..i];
      ByPathFailureSticks(row, init, i);
    } else {
      assert paths[..i] == paths;
    }
  }

  /** The first path whose row fails decides the table's fault. */
  lemma ByPathFirstFailure<T>(row: seq<string> -> Result<T, Fault>, paths: seq<seq<string>>, i: nat)
    requires i < |paths|
    requires ByPath(row, paths[..i]).Success? && row(paths[i]).Failure?
    ensures ByPath(row, paths) == Failure(row(paths[i]).error)
  {
    assert paths[..i + 1][..i] == paths[..i];
    ByPathFailureSticks(row, paths, i + 1);
  }

  /** One more path extends the table of the earlier paths by its row. */
  lemma ByPathSnoc<T>(row: seq<string> -> Result<T, Fault>, paths: seq<seq<string>>, i: nat)
    requires i < |paths|
    requires ByPath(row, paths[..i]).Success? && row(paths[i]).Success?
    ensures ByPath(row, paths[..i + 1]) == Success(ByPath(row, paths[..i]).value + [row(paths[i]).value])
  {
    assert paths[..i + 1][..i] == paths[..i];
  }

  function SaveTagsRow(t: PSet): seq<string> -> Result<seq<string>, Fault> {
    labels => SaveTagsOf(t, labels)
  }

  function GTSeedsRow(t: PSet): seq<string> -> Result<seq<(bool, string)>, Fault> {
    labels => GTSeedsOf(t, labels)
  }

  function L1TSeedsRow(t: PSet): seq<string> -> Result<seq<string>, Fault> {
    labels => L1TSeedsOf(t, labels)
  }

  /** `saveTagsModules_`: the save-tags modules of each path. */
  function SaveTagsByPath(t: PSet, paths: seq<seq<string>>): Result<seq<seq<string>>, Fault> {
    ByPath(SaveTagsRow(t), paths)
  }

  /** `hltL1GTSeeds_`: the legacy seeds of each path. */
  function GTSeedsByPath(t: PSet, paths: seq<seq<string>>): Result<seq<seq<(bool, string)>>, Fault> {
    ByPath(GTSeedsRow(t), paths)
  }

  /** `hltL1TSeeds_`: the stage-2 seeds of each path. */
  function L1TSeedsByPath(t: PSet, paths: seq<seq<string>>): Result<seq<seq<string>>, Fault> {
    ByPath(L1TSeedsRow(t), paths)
  }

  /** The per-path tables of `extract()` (:115-203), before they are stored. */
  datatype PathTables = PathTables(
    names: seq<string>,
    labels: seq<seq<string>>,
    saveTags: seq<seq<string>>,
    byName: map<string, nat>,
    byPath: seq<map<string, nat>>,
    gtSeeds: seq<seq<(bool, string)>>,
    l1tSeeds: seq<seq<string>>)

  /** One entry per trigger path in each per-path table, and position maps
      that find each path and each module at its position. */
  ghost predicate PathsIndexed(p: PathTables) {
    && |p.labels| == |p.names|
    && |p.saveTags| == |p.names|
    && |p.byPath| == |p.names|
    && |p.gtSeeds| == |p.names|
    && |p.l1tSeeds| == |p.names|
    && p.byName == LastIndexMap(p.names)
    && (forall i :: 0 <= i < |p.byPath| ==> p.byPath[i] == LastIndexMap(p.labels[i]))
  }

  /** `p` holds the path tables computed from the tree: trigger names, the
      module labels of each path, its save-tags modules and seeds, and the
      position maps of paths and of modules on each path. */
  ghost predicate PathTablesOf(t: PSet, bitPosition: seq<string> -> seq<string>, p: PathTables) {
    && PathsIndexed(p)
    && p.names == TriggerNamesOf(t)
    && p.labels == ModuleLabelsFound(t, bitPosition, p.names)
    && SaveTagsByPath(t, p.labels) == Success(p.saveTags)
    && GTSeedsByPath(t, p.labels) == Success(p.gtSeeds)
    && L1TSeedsByPath(t, p.labels) == Success(p.l1tSeeds)
  }

  /** A stream or dataset table: sorted names, their positions and the sorted
      contents of each. */
  datatype Groups = Groups(names: seq<string>, index: map<string, nat>, contents: seq<seq<string>>)

  /** Everything `extract()` stores in the data members of `HLTConfigData`. */
  datatype Tables = Tables(
    processName: string,
    globalTag: string,
    tableName: string,
    paths: PathTables,
    streams: Groups,
    datasets: Groups,
    prescales: PrescaleTable,
    asDouble: map<string, seq<real>>,
    asFraction: map<string, seq<Fraction>>,
    l1tType: nat)

  // ===========================================================================
  // When extraction succeeds
  // ===========================================================================

  /** The path stages of `extract()` (:91-203) run without an exception:
      the global tag is a parameter set, every trigger path is present
      (otherwise the shortened module-label table makes `moduleLabels(i)`
      throw), and the save-tags and seed tables of the paths can be built. */
  ghost predicate PathsSucceed(t: PSet, bitPosition: seq<string> -> seq<string>) {
    var names := TriggerNamesOf(t);
    var labels := ModuleLabelsFound(t, bitPosition, names);
    && GlobalTagOf(t).Success?
    && |labels| == |names|
    && SaveTagsByPath(t, labels).Success?
    && GTSeedsByPath(t, labels).Success?
    && L1TSeedsByPath(t, labels).Success?
  }

  /** Path by path: the path stages succeed exactly when the global tag is a
      parameter set, every trigger path is present, every module on a path
      resolves and every enabled seed module carries its seed parameters. */
  lemma PathsSucceedOnEveryPath(t: PSet, bitPosition: seq<string> -> seq<string>)
    ensures var names := TriggerNamesOf(t);
            var labels := ModuleLabelsFound(t, bitPosition, names);
            PathsSucceed(t, bitPosition) <==>
              && GlobalTagOf(t).Success?
              && |labels| == |names|
              && (forall i :: 0 <= i < |labels| ==> SaveTagsOf(t, labels[i]).Success?)
              && (forall i :: 0 <= i < |labels| ==> GTSeedsOf(t, labels[i]).Success?)
              && (forall i :: 0 <= i < |labels| ==> L1TSeedsOf(t, labels[i]).Success?)
  {
    var labels := ModuleLabelsFound(t, bitPosition, TriggerNamesOf(t));
    ByPathRows(SaveTagsRow(t), labels);
    ByPathRows(GTSeedsRow(t), labels);
    ByPathRows(L1TSeedsRow(t), labels);
  }

  /** `extract()` runs to the end without an exception: the path stages
      succeed, every prescale row is well formed and every module in
      `@all_modules` resolves. */
  ghost predicate ExtractionSucceeds(t: PSet, bitPosition: seq<string> -> seq<string>) {
    && PathsSucceed(t, bitPosition)
    && PrescaleTableOf(t).Success?
    && ModuleTypesOf(t, AllModulesOf(t)).Success?
  }

  /** The exception `extract()` ends with: that of the first stage that
      throws, in the order of :96-310 (global tag, saveTags lists, a missing
      module list, legacy seeds, stage-2 seeds, prescale table, module
      classes), or none. */
  ghost function ExtractionFault(t: PSet, bitPosition: seq<string> -> seq<string>): Option<Fault> {
    var names := TriggerNamesOf(t);
    var labels := ModuleLabelsFound(t, bitPosition, names);
    if GlobalTagOf(t).Failure? then Some(GlobalTagOf(t).error)
    else if SaveTagsByPath(t, labels).Failure? then Some(SaveTagsByPath(t, labels).error)
    else if |labels| != |names| then Some(IndexOutOfRange)
    else if GTSeedsByPath(t, labels).Failure? then Some(GTSeedsByPath(t, labels).error)
    else if L1TSeedsByPath(t, labels).Failure? then Some(L1TSeedsByPath(t, labels).error)
    else if PrescaleTableOf(t).Failure? then Some(PrescaleTableOf(t).error)
    else if ModuleTypesOf(t, AllModulesOf(t)).Failure? then Some(ModuleTypesOf(t, AllModulesOf(t)).error)
    else None
  }

  /** Extraction throws exactly when some stage does. */
  lemma ExtractionFaultIffFails(t: PSet, bitPosition: seq<string> -> seq<string>)
    ensures ExtractionFault(t, bitPosition).None? <==> ExtractionSucceeds(t, bitPosition)
  {
  }

  /** An empty tree extracts without an exception: the tree of the default
      constructor yields empty tables. */
  lemma EmptyTreeExtracts(bitPosition: seq<string> -> seq<string>)
    ensures ExtractionSucceeds(EmptyPSet, bitPosition)
    ensures TriggerNamesOf(EmptyPSet) == [] && PrescaleTableOf(EmptyPSet) == Success(EmptyPrescaleTable)
  {
  }

  // ===========================================================================
  // One step of each scan, as the loops of `extract()` take it
  // ===========================================================================

  lemma SaveTagsSnoc(t: PSet, labels: seq<string>, j: nat)
    requires j < |labels|
    ensures SaveTagsOf(t, labels[..j + 1]) == ThenAppend(SaveTagsOf(t, labels[..j]), SaveTagsEntry(t, labels[j]))
    ensures SaveTagsOf(t, labels[..j]).Failure? ==> SaveTagsOf(t, labels).Failure?
    ensures SaveTagsEntry(t, labels[j]).Failure? ==> SaveTagsOf(t, labels).Failure?
    ensures SaveTagsOf(t, labels[..j]).Failure? ==> SaveTagsOf(t, labels) == SaveTagsOf(t, labels[..j])
    ensures SaveTagsOf(t, labels[..j]).Success? && SaveTagsEntry(t, labels[j]).Failure? ==>
              SaveTagsOf(t, labels) == Failure(SaveTagsEntry(t, labels[j]).error)
  {
    CollectSnoc(m => SaveTagsEntry(t, m), labels, j);
    if SaveTagsOf(t, labels[..j]).Failure? {
      CollectFailureSticks(m => SaveTagsEntry(t, m), labels, j);
    }
    if SaveTagsOf(t, labels[..j + 1]).Failure? {
      CollectFailureSticks(m => SaveTagsEntry(t, m), labels, j + 1);
    }
  }

  lemma GTSeedsSnoc(t: PSet, labels: seq<string>, j: nat)
    requires j < |labels|
    ensures GTSeedsOf(t, labels[..j + 1]) == ThenAppend(GTSeedsOf(t, labels[..j]), GTSeedEntry(t, labels[j]))
    ensures GTSeedsOf(t, labels[..j]).Failure? ==> GTSeedsOf(t, labels).Failure?
    ensures GTSeedEntry(t, labels[j]).Failure? ==> GTSeedsOf(t, labels).Failure?
    ensures GTSeedsOf(t, labels[..j]).Failure? ==> GTSeedsOf(t, labels) == GTSeedsOf(t, labels[..j])
    ensures GTSeedsOf(t, labels[..j]).Success? && GTSeedEntry(t, labels[j]).Failure? ==>
              GTSeedsOf(t, labels) == Failure(GTSeedEntry(t, labels[j]).error)
  {
    CollectSnoc(m => GTSeedEntry(t, m), labels, j);
    if GTSeedsOf(t, labels[..j]).Failure? {
      CollectFailureSticks(m => GTSeedEntry(t, m), labels, j);
    }
    if GTSeedsOf(t, labels[..j + 1]).Failure? {
      CollectFailureSticks(m => GTSeedEntry(t, m), labels, j + 1);
    }
  }

  lemma L1TSeedsSnoc(t: PSet, labels: seq<string>, j: nat)
    requires j < |labels|
    ensures L1TSeedsOf(t, labels[..j + 1]) == ThenAppend(L1TSeedsOf(t, labels[..j]), L1TSeedEntry(t, labels[j]))
    ensures L1TSeedsOf(t, labels[..j]).Failure? ==> L1TSeedsOf(t, labels).Failure?
    ensures L1TSeedEntry(t, labels[j]).Failure? ==> L1TSeedsOf(t, labels).Failure?
    ensures L1TSeedsOf(t, labels[..j]).Failure? ==> L1TSeedsOf(t, labels) == L1TSeedsOf(t, labels[..j])
    ensures L1TSeedsOf(t, labels[..j]).Success? && L1TSeedEntry(t, labels[j]).Failure? ==>
              L1TSeedsOf(t, labels) == Failure(L1TSeedEntry(t, labels[j]).error)
  {
    CollectSnoc(m => L1TSeedEntry(t, m), labels, j);
    if L1TSeedsOf(t, labels[..j]).Failure? {
      CollectFailureSticks(m => L1TSeedEntry(t, m), labels, j);
    }
    if L1TSeedsOf(t, labels[..j + 1]).Failure? {
      CollectFailureSticks(m => L1TSeedEntry(t, m), labels, j + 1);
    }
  }

  lemma ModuleTypesSnoc(t: PSet, modules: seq<string>, j: nat)
    requires j < |modules|
    ensures ModuleTypesOf(t, modules[..j + 1]) == ThenAppend(ModuleTypesOf(t, modules[..j]), ModuleTypeEntry(t, modules[j]))
    ensures ModuleTypesOf(t, modules[..j]).Failure? ==> ModuleTypesOf(t, modules).Failure?
    ensures ModuleTypeEntry(t, modules[j]).Failure? ==> ModuleTypesOf(t, modules).Failure?
    ensures ModuleTypesOf(t, modules[..j]).Success? && ModuleTypeEntry(t, modules[j]).Failure? ==>
              ModuleTypesOf(t, modules) == Failure(ModuleTypeEntry(t, modules[j]).error)
  {
    CollectSnoc(m => ModuleTypeEntry(t, m), modules, j);
    if ModuleTypesOf(t, modules[..j]).Failure? {
      CollectFailureSticks(m => ModuleTypeEntry(t, m), modules, j);
    }
    if ModuleTypesOf(t, modules[..j + 1]).Failure? {
      CollectFailureSticks(m => ModuleTypeEntry(t, m), modules, j + 1);
    }
  }

  lemma CountOfTypesSnoc(types: seq<string>, kind: string, kinds: set<string>)
    ensures CountOfTypes(types + [kind], kinds) == CountOfTypes(types, kinds) + (if kind in kinds then 1 else 0)
  {
    assert (types + [kind])[..|types|] == types;
  }
}
