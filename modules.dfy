/**
 * The module loader of the current revision (src/bot_base/modules.py).
 *
 * The modules folder is a table from a module's name to what its directory
 * holds: nothing (no directory), a directory without `infos.toml`, or the
 * parsed metadata. The TOML parser, the filesystem and `importlib` are not
 * modelled: metadata is given as data, and importing a module always works.
 * A version range (a `packaging` `SpecifierSet`) is kept as its text and
 * decided by the `matches` predicate the loader is given.
 */
module Modules {
  import opened Wrappers
  import opened Errors

  /** A metadata value of `infos.toml`: the few shapes the loader reads. */
  datatype InfoValue =
    | IStr(s: string)
    | IBool(b: bool)
    | IInt(i: int)
    /** The `dependencies` table: module name to the version range it needs,
        in the order the file lists them. */
    | ITable(entries: seq<DepEntry>)

  datatype DepEntry = DepEntry(name: string, range: string)

  type Infos = map<string, InfoValue>

  /** What a module's directory holds. */
  datatype Files = NoInfos | WithInfos(infos: Infos)

  /** The modules folder: a name absent here has no directory. */
  type Catalog = map<string, Files>

  /** A loaded module's dependency: its name and the range it must satisfy. */
  datatype Dependency = Dependency(name: string, range: string)

  /** The keys every complete `infos.toml` has. */
  const MinimalInfos: seq<string> := ["version", "bot_version"]

  /** `Module.infos`: the metadata, or what reading it raises. A missing
      directory raises `errors.ModuleNotFoundError`, which src/errors.py does
      not declare, so the lookup itself fails with `AttributeError`. */
  function InfosOf(cat: Catalog, name: string): (r: Result<Infos, Error>)
    ensures r.Ok? <==> name in cat && cat[name].WithInfos?
    ensures name !in cat ==> r == Err(AttributeError)
    ensures name in cat && cat[name].NoInfos? ==> r == Err(IncompatibleModuleError)
  {
    if name !in cat then Err(AttributeError)
    else match cat[name]
      case NoInfos => Err(IncompatibleModuleError)
      case WithInfos(i) => Ok(i)
  }

  /** `Module.version`: the "version" entry, `None` when there is none. */
  function Version(i: Infos): Option<InfoValue> {
    if "version" in i then Some(i["version"]) else None
  }

  /** Python truthiness of a metadata value. */
  predicate TruthyInfo(v: InfoValue) {
    match v
    case IStr(s) => s != ""
    case IBool(b) => b
    case IInt(n) => n != 0
    case ITable(es) => es != []
  }

  /** `Module.has_all_infos`: every key of `keys` is present, checked in order. */
  function HasKeys(i: Infos, keys: seq<string>): (r: bool)
    ensures r <==> forall k :: 0 <= k < |keys| ==> keys[k] in i
  {
    if keys == [] then true
    else if keys[0] !in i then false
    else HasKeys(i, keys[1..])
  }

  function HasAllInfos(i: Infos): bool {
    HasKeys(i, MinimalInfos)
  }

  /** `has_all_infos` holds exactly when both required keys are present. */
  lemma HasAllInfosIff(i: Infos)
    ensures HasAllInfos(i) <==> "version" in i && "bot_version" in i
  {
    assert MinimalInfos[0] == "version" && MinimalInfos[1] == "bot_version";
  }

  /** `Module.is_metamodule`: the truth of the "metamodule" entry, false
      when there is none. */
  function IsMetamodule(i: Infos): (r: bool)
    ensures "metamodule" !in i ==> !r
    ensures "metamodule" in i ==> (r <==> TruthyInfo(i["metamodule"]))
  {
    "metamodule" in i && TruthyInfo(i["metamodule"])
  }

  function DepsOf(es: seq<DepEntry>): (r: seq<Dependency>)
    ensures |r| == |es|
    ensures forall k :: 0 <= k < |es| ==> r[k] == Dependency(es[k].name, es[k].range)
  {
    if es == [] then [] else [Dependency(es[0].name, es[0].range)] + DepsOf(es[1..])
  }

  /** `Module.deps`: one dependency per entry of "dependencies", none when
      the entry is absent. Any other value there has no `items` method. */
  function Deps(i: Infos): (r: Result<seq<Dependency>, Error>)
    ensures "dependencies" !in i ==> r == Ok([])
    ensures "dependencies" in i && i["dependencies"].ITable? ==>
              r.Ok? && |r.value| == |i["dependencies"].entries|
              && forall k :: 0 <= k < |r.value| ==>
                   r.value[k].name == i["dependencies"].entries[k].name
                   && r.value[k].range == i["dependencies"].entries[k].range
    ensures "dependencies" in i && !i["dependencies"].ITable? ==> r == Err(AttributeError)
  {
    if "dependencies" !in i then Ok([])
    else match i["dependencies"]
      case ITable(es) => Ok(DepsOf(es))
      case _ => Err(AttributeError)
  }

  /** Python's `dict.update` with one new key: an existing key keeps its place. */
  function Insert(s: seq<string>, x: string): (r: seq<string>)
    ensures x in r
    ensures forall y :: y in r <==> y in s || y == x
  {
    if x in s then s else s + [x]
  }

  /** The two registries, by their keys in insertion order; either maps a
      name to the module of that name. */
  datatype Registry = Registry(modules: seq<string>, dispatch: seq<string>)

  /** Every registered module has metadata, and every dispatched module is
      registered and is not a metamodule. */
  predicate Sound(cat: Catalog, reg: Registry) {
    && (forall x :: x in reg.modules ==> x in cat && cat[x].WithInfos?)
    && (forall x :: x in reg.dispatch ==> x in reg.modules && x in cat && cat[x].WithInfos? && !IsMetamodule(cat[x].infos))
  }

  datatype Run = Run(outcome: Outcome<Error>, reg: Registry)

  /** `Matches(range, version)`: `version in SpecifierSet(range)`. */
  type Matcher = (string, Option<InfoValue>) -> bool

  /** Loading follows dependencies with no guard against cycles; it stops
      only when they are acyclic, which a rank on the metadata witnesses:
      every dependency that has metadata ranks below its dependent. */
  predicate WellRanked(cat: Catalog, rank: map<string, nat>) {
    forall m :: m in cat && cat[m].WithInfos? ==> m in rank && DepsRanked(cat, rank, m)
  }

  predicate DepsRanked(cat: Catalog, rank: map<string, nat>, m: string)
    requires m in cat && cat[m].WithInfos? && m in rank
  {
    Deps(cat[m].infos).Ok? ==>
      forall k :: 0 <= k < |Deps(cat[m].infos).value| ==>
        Below(cat, rank, Deps(cat[m].infos).value[k].name, rank[m])
  }

  predicate Below(cat: Catalog, rank: map<string, nat>, d: string, bound: nat) {
    d in cat && cat[d].WithInfos? ==> d in rank && rank[d] < bound
  }

  /** How much loading a name may still recurse: a name without metadata
      fails before it recurses. */
  function Measure(cat: Catalog, rank: map<string, nat>, name: string): nat {
    if name in cat && cat[name].WithInfos? && name in rank then rank[name] + 1 else 0
  }

  lemma DepsMeasure(cat: Catalog, rank: map<string, nat>, name: string, ds: seq<Dependency>)
    requires WellRanked(cat, rank) && name in cat && cat[name].WithInfos?
    requires Deps(cat[name].infos) == Ok(ds)
    ensures forall k :: 0 <= k < |ds| ==> Measure(cat, rank, ds[k].name) < Measure(cat, rank, name)
  {
    assert DepsRanked(cat, rank, name);
    forall k | 0 <= k < |ds|
      ensures Measure(cat, rank, ds[k].name) < Measure(cat, rank, name)
    {
      assert Below(cat, rank, ds[k].name, rank[name]);
    }
  }

  /** `load_module(name, version)` on the registries `reg`.
      It stops at once for a registered name. It raises `AttributeError` (the
      undeclared `errors.MissingDependency`) for a version outside the range.
      It loads each dependency with its range, stopping at the first that
      raises, then registers the module, and dispatches to it unless it is
      a metamodule. A metamodule loaded with no range then looks up
      "enabled_modules" among the registered modules: `KeyError` unless a
      module has that name, whose object `in` then cannot search
      (`TypeError`). */
  function LoadModuleF(cat: Catalog, matches: Matcher, rank: map<string, nat>,
                       reg: Registry, name: string, version: Option<string>): Run
    requires WellRanked(cat, rank)
    decreases Measure(cat, rank, name), 1, 0
  {
    if name in reg.modules then Run(Pass, reg)
    else match InfosOf(cat, name)
      case Err(e) => Run(Fail(e), reg)
      case Ok(infos) =>
        if version.Some? && !matches(version.value, Version(infos)) then Run(Fail(AttributeError), reg)
        else match Deps(infos)
          case Err(e) => Run(Fail(e), reg)
          case Ok(ds) =>
            DepsMeasure(cat, rank, name, ds);
            var after := LoadDepsF(cat, matches, rank, reg, ds, Measure(cat, rank, name));
            if after.outcome.Fail? then after
            else Registered(after.reg, name, version, IsMetamodule(infos))
  }

  /** Lines 126-130: the registries once the dependencies are loaded. */
  function Registered(reg: Registry, name: string, version: Option<string>, meta: bool): Run {
    var modules := Insert(reg.modules, name);
    if !meta then Run(Pass, Registry(modules, Insert(reg.dispatch, name)))
    else if version.None? then
      Run(Fail(if "enabled_modules" in modules then TypeError else KeyError), Registry(modules, reg.dispatch))
    else Run(Pass, Registry(modules, reg.dispatch))
  }

  lemma RegisteredSound(cat: Catalog, reg: Registry, name: string, version: Option<string>)
    requires Sound(cat, reg) && name in cat && cat[name].WithInfos?
    ensures Sound(cat, Registered(reg, name, version, IsMetamodule(cat[name].infos)).reg)
  {
  }

  /** The loop of lines 123-124 over the first `|ds|` dependencies. */
  function LoadDepsF(cat: Catalog, matches: Matcher, rank: map<string, nat>,
                     reg: Registry, ds: seq<Dependency>, bound: nat): Run
    requires WellRanked(cat, rank)
    requires forall k :: 0 <= k < |ds| ==> Measure(cat, rank, ds[k].name) < bound
    decreases bound, 0, |ds|
  {
    if ds == [] then Run(Pass, reg)
    else
      var init := LoadDepsF(cat, matches, rank, reg, ds[..|ds| - 1], bound);
      if init.outcome.Fail? then init
      else LoadModuleF(cat, matches, rank, init.reg, ds[|ds| - 1].name, Some(ds[|ds| - 1].range))
  }

  /** `load_modules`: `load_module` of every enabled name, in order, stopping
      at the first that raises. */
  function LoadAllF(cat: Catalog, matches: Matcher, rank: map<string, nat>,
                    reg: Registry, names: seq<string>): Run
    requires WellRanked(cat, rank)
    decreases |names|
  {
    if names == [] then Run(Pass, reg)
    else
      var init := LoadAllF(cat, matches, rank, reg, names[..|names| - 1]);
      if init.outcome.Fail? then init
      else LoadModuleF(cat, matches, rank, init.reg, names[|names| - 1], None)
  }

  /** The module loader: the modules folder, the range test, the configured
      "enabled_modules" list, and the two registries it fills. */
  class ModuleManager {
    const catalog: Catalog
    const matches: Matcher
    const enabled: seq<string>
    /** Witness that the metadata's dependencies are acyclic. */
    ghost const rank: map<string, nat>
    var modules: seq<string>
    var dispatch: seq<string>

    ghost predicate Valid() reads this {
      WellRanked(catalog, rank) && Sound(catalog, Registry(modules, dispatch))
    }

    constructor (catalog: Catalog, matches: Matcher, enabled: seq<string>, ghost rank: map<string, nat>)
      requires WellRanked(catalog, rank)
      ensures Valid()
      ensures this.catalog == catalog && this.matches == matches && this.enabled == enabled
      ensures this.rank == rank && modules == [] && dispatch == []
    {
      this.catalog := catalog;
      this.matches := matches;
      this.enabled := enabled;
      this.rank := rank;
      modules := [];
      dispatch := [];
    }

    /** `load_module(name, version)`. */
    method LoadModule(name: string, version: Option<string>) returns (r: Outcome<Error>)
      requires Valid()
      modifies this
      ensures Valid()
      ensures Run(r, Registry(modules, dispatch))
              == LoadModuleF(catalog, matches, rank, Registry(old(modules), old(dispatch)), name, version)
      decreases Measure(catalog, rank, name), 1
    {
      if name in modules {
        return Pass;
      }
      var infos := InfosOf(catalog, name);
      if infos.Err? {
        return Fail(infos.error);
      }
      if version.Some? && !matches(version.value, Version(infos.value)) {
        return Fail(AttributeError);
      }
      var deps := Deps(infos.value);
      if deps.Err? {
        return Fail(deps.error);
      }
      var ds := deps.value;
      DepsMeasure(catalog, rank, name, ds);
      r := LoadDeps(ds, Measure(catalog, rank, name));
      if r.Fail? {
        return;
      }
      RegisteredSound(catalog, Registry(modules, dispatch), name, version);
      modules := Insert(modules, name);
      if !IsMetamodule(infos.value) {
        dispatch := Insert(dispatch, name);
        return Pass;
      }
      if version.None? {
        return Fail(if "enabled_modules" in modules then TypeError else KeyError);
      }
      return Pass;
    }

    /** Lines 123-124: load each dependency with its range, in order. */
    method LoadDeps(ds: seq<Dependency>, ghost bound: nat) returns (r: Outcome<Error>)
      requires Valid()
      requires forall k :: 0 <= k < |ds| ==> Measure(catalog, rank, ds[k].name) < bound
      modifies this
      ensures Valid()
      ensures Run(r, Registry(modules, dispatch))
              == LoadDepsF(catalog, matches, rank, Registry(old(modules), old(dispatch)), ds, bound)
      decreases bound, 0
    {
      ghost var reg0 := Registry(modules, dispatch);
      for i := 0 to |ds|
        invariant Valid()
        invariant LoadDepsF(catalog, matches, rank, reg0, ds[..i], bound) == Run(Pass, Registry(modules, dispatch))
      {
        assert ds[..i + 1][..i] == ds[..i];
        r := LoadModule(ds[i].name, Some(ds[i].range));
        if r.Fail? {
          LoadDepsFailsFrom(catalog, matches, rank, reg0, ds, bound, i + 1);
          return;
        }
      }
      assert ds[..|ds|] == ds;
      return Pass;
    }

    /** `load_modules`. */
    method LoadModules() returns (r: Outcome<Error>)
      requires Valid()
      modifies this
      ensures Valid()
      ensures Run(r, Registry(modules, dispatch))
              == LoadAllF(catalog, matches, rank, Registry(old(modules), old(dispatch)), enabled)
    {
      ghost var reg0 := Registry(modules, dispatch);
      for i := 0 to |enabled|
        invariant Valid()
        invariant LoadAllF(catalog, matches, rank, reg0, enabled[..i]) == Run(Pass, Registry(modules, dispatch))
      {
        assert enabled[..i + 1][..i] == enabled[..i];
        r := LoadModule(enabled[i], None);
        if r.Fail? {
          LoadAllFailsFrom(catalog, matches, rank, reg0, enabled, i + 1);
          return;
        }
      }
      assert enabled[..|enabled|] == enabled;
      return Pass;
    }

    /** `__iter__`: the dispatched modules, in the order they were added. */
    function Iter(): (r: seq<string>)
      reads this
      requires Valid()
      ensures forall x :: x in r ==> x in modules && x in catalog && catalog[x].WithInfos? && !IsMetamodule(catalog[x].infos)
    {
      dispatch
    }
  }

  // ---------------------------------------------------------------------
  // Loop lemmas: a failure in a prefix is the failure of the whole run.

  lemma {:induction false} LoadDepsFailsFrom(cat: Catalog, matches: Matcher, rank: map<string, nat>,
                                             reg: Registry, ds: seq<Dependency>, bound: nat, i: nat)
    requires WellRanked(cat, rank)
    requires forall k :: 0 <= k < |ds| ==> Measure(cat, rank, ds[k].name) < bound
    requires i <= |ds|
    requires LoadDepsF(cat, matches, rank, reg, ds[..i], bound).outcome.Fail?
    ensures LoadDepsF(cat, matches, rank, reg, ds, bound) == LoadDepsF(cat, matches, rank, reg, ds[..i], bound)
    decreases |ds|
  {
    if i < |ds| {
      assert ds[..|ds| - 1][..i] == ds[..i];
      LoadDepsFailsFrom(cat, matches, rank, reg, ds[..|ds| - 1], bound, i);
    } else {
      assert ds[..i] == ds;
    }
  }

  lemma {:induction false} LoadAllFailsFrom(cat: Catalog, matches: Matcher, rank: map<string, nat>,
                                            reg: Registry, names: seq<string>, i: nat)
    requires WellRanked(cat, rank)
    requires i <= |names|
    requires LoadAllF(cat, matches, rank, reg, names[..i]).outcome.Fail?
    ensures LoadAllF(cat, matches, rank, reg, names) == LoadAllF(cat, matches, rank, reg, names[..i])
    decreases |names|
  {
    if i < |names| {
      assert names[..|names| - 1][..i] == names[..i];
      LoadAllFailsFrom(cat, matches, rank, reg, names[..|names| - 1], i);
    } else {
      assert names[..i] == names;
    }
  }
}
