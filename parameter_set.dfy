/** The hierarchical parameter tree (`edm::ParameterSet`) that the HLT
    configuration is read from, seen through the queries the extractor makes:
    `exists`, `existsAs<T>`, `getParameter<T>`, `getParameterSet`,
    `getParameterSetVector` and `getParameterNamesForType<T>`. A tree is a map
    from parameter name to a typed value; a getter on an absent name or on a
    value of another type fails, as the C++ getter throws. */
module ParameterSet {
  import opened Wrappers
  import opened Sequences

  datatype Value =
    | VString(s: string)          // std::string
    | VStrings(ss: seq<string>)   // std::vector<std::string>
    | VBool(b: bool)              // bool
    | VUints(us: seq<nat>)        // std::vector<unsigned int>
    | VInputTag(tagLabel: string) // edm::InputTag, of which only the label is read
    | VPSet(p: PSet)              // edm::ParameterSet
    | VPSets(ps: seq<PSet>)       // std::vector<edm::ParameterSet>

  datatype PSet = PSet(entries: map<string, Value>)

  /** The empty tree: `ParameterSet()`, and the shared dummy set given to unknown modules. */
  const EmptyPSet: PSet := PSet(map[])

  /** The exceptions the extraction can raise. */
  datatype Fault =
    | MissingParameter(name: string)     // getParameter on an absent name
    | WrongParameterType(name: string)   // getParameter / getParameterSet on a value of another type
    | IndexOutOfRange                    // std::vector::at past the end

  datatype Kind = StringKind | StringsKind | BoolKind | UintsKind | InputTagKind | PSetKind | PSetsKind

  function KindOf(v: Value): Kind {
    match v
    case VString(_) => StringKind
    case VStrings(_) => StringsKind
    case VBool(_) => BoolKind
    case VUints(_) => UintsKind
    case VInputTag(_) => InputTagKind
    case VPSet(_) => PSetKind
    case VPSets(_) => PSetsKind
  }

  /** `exists(name)`: a parameter of any type. */
  predicate Exists(p: PSet, name: string) {
    name in p.entries
  }

  /** `existsAs<T>(name)`: a parameter of type `k`. */
  predicate ExistsAs(p: PSet, name: string, k: Kind) {
    name in p.entries && KindOf(p.entries[name]) == k
  }

  /** `getParameter<T>(name)`: the value, or the exception the getter throws. */
  function Lookup(p: PSet, name: string, k: Kind): (r: Result<Value, Fault>)
    ensures r.Success? <==> ExistsAs(p, name, k)
    ensures r.Success? ==> r.value == p.entries[name] && KindOf(r.value) == k
    ensures r.Failure? && name !in p.entries ==> r.error == MissingParameter(name)
    ensures r.Failure? && name in p.entries ==> r.error == WrongParameterType(name)
  {
    if name !in p.entries then Failure(MissingParameter(name))
    else if KindOf(p.entries[name]) != k then Failure(WrongParameterType(name))
    else Success(p.entries[name])
  }

  function GetString(p: PSet, name: string): Result<string, Fault> {
    var v :- Lookup(p, name, StringKind);
    Success(v.s)
  }

  function GetBool(p: PSet, name: string): Result<bool, Fault> {
    var v :- Lookup(p, name, BoolKind);
    Success(v.b)
  }

  function GetUints(p: PSet, name: string): Result<seq<nat>, Fault> {
    var v :- Lookup(p, name, UintsKind);
    Success(v.us)
  }

  function GetInputTagLabel(p: PSet, name: string): Result<string, Fault> {
    var v :- Lookup(p, name, InputTagKind);
    Success(v.tagLabel)
  }

  /** `getParameterSet(name)`. */
  function GetPSet(p: PSet, name: string): Result<PSet, Fault> {
    var v :- Lookup(p, name, PSetKind);
    Success(v.p)
  }

  /** The guarded read `if (existsAs<std::string>(name)) x = getParameter<std::string>(name);`
      with `x` starting out as `otherwise`. */
  function StringOr(p: PSet, name: string, otherwise: string): string {
    if ExistsAs(p, name, StringKind) then p.entries[name].s else otherwise
  }

  function StringsOr(p: PSet, name: string, otherwise: seq<string>): seq<string> {
    if ExistsAs(p, name, StringsKind) then p.entries[name].ss else otherwise
  }

  function BoolOr(p: PSet, name: string, otherwise: bool): bool {
    if ExistsAs(p, name, BoolKind) then p.entries[name].b else otherwise
  }

  /** `getParameterNamesForType<T>()`: the names of all parameters of type `k`,
      each once, in an order the tree chooses. */
  method NamesOfKind(p: PSet, k: Kind) returns (names: seq<string>)
    ensures Distinct(names)
    ensures forall n :: n in names <==> ExistsAs(p, n, k)
  {
    names := [];
    var rest := p.entries.Keys;
    while rest != {}
      invariant rest <= p.entries.Keys
      invariant Distinct(names)
      invariant forall n :: n in names ==> n !in rest
      invariant forall n :: n in names <==> ExistsAs(p, n, k) && n !in rest
      decreases rest
    {
      var n :| n in rest;
      if KindOf(p.entries[n]) == k {
        names := names + [n];
      }
      rest := rest - {n};
    }
  }
}
