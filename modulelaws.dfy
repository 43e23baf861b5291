/**
 * What `load_module` and `load_modules` promise about the two registries:
 * they only ever add, a module is registered after all of its dependencies,
 * a failure leaves the dependent unregistered, and only modules that are
 * not metamodules are dispatched to.
 */
module ModuleLaws {
  import opened Wrappers
  import opened Errors
  import opened Modules

  /** `b` extends `a`: both registries only gain keys at their end. */
  predicate Grows(cat: Catalog, a: Registry, b: Registry) {
    && a.modules <= b.modules
    && a.dispatch <= b.dispatch
    && (Sound(cat, a) ==> Sound(cat, b))
  }

  /** Every module registered between `a` and `b` is `name` itself or
      ranks below it. */
  predicate AddedOnly(cat: Catalog, rank: map<string, nat>, a: Registry, b: Registry, name: string) {
    forall x :: x in b.modules && x !in a.modules ==> x == name || Measure(cat, rank, x) < Measure(cat, rank, name)
  }

  /** Every module registered between `a` and `b` ranks below `bound`. */
  predicate AddedBelow(cat: Catalog, rank: map<string, nat>, a: Registry, b: Registry, bound: nat) {
    forall x :: x in b.modules && x !in a.modules ==> Measure(cat, rank, x) < bound
  }

  lemma GrowsTrans(cat: Catalog, a: Registry, b: Registry, c: Registry)
    requires Grows(cat, a, b) && Grows(cat, b, c)
    ensures Grows(cat, a, c)
  {
  }

  lemma RegisteredGrows(cat: Catalog, reg: Registry, name: string, version: Option<string>)
    requires name in cat && cat[name].WithInfos?
    ensures Grows(cat, reg, Registered(reg, name, version, IsMetamodule(cat[name].infos)).reg)
  {
    if Sound(cat, reg) {
      RegisteredSound(cat, reg, name, version);
    }
  }

  /** `load_module` only adds to the registries, keeps them sound, and adds
      nothing but the module and modules of lower rank. */
  lemma {:induction false} LoadModuleGrows(cat: Catalog, matches: Matcher, rank: map<string, nat>,
                                           reg: Registry, name: string, version: Option<string>)
    requires WellRanked(cat, rank)
    ensures Grows(cat, reg, LoadModuleF(cat, matches, rank, reg, name, version).reg)
    ensures AddedOnly(cat, rank, reg, LoadModuleF(cat, matches, rank, reg, name, version).reg, name)
    decreases Measure(cat, rank, name), 1
  {
    if name in reg.modules || InfosOf(cat, name).Err? {
    } else {
      var infos := InfosOf(cat, name).value;
      if version.Some? && !matches(version.value, Version(infos)) {
      } else if Deps(infos).Ok? {
        var ds := Deps(infos).value;
        DepsMeasure(cat, rank, name, ds);
        var after := LoadDepsF(cat, matches, rank, reg, ds, Measure(cat, rank, name));
        LoadDepsGrows(cat, matches, rank, reg, ds, Measure(cat, rank, name));
        if after.outcome.Pass? {
          RegisteredGrows(cat, after.reg, name, version);
          GrowsTrans(cat, reg, after.reg, Registered(after.reg, name, version, IsMetamodule(infos)).reg);
        }
      }
    }
  }

  /** The dependency loop only adds, and only modules below its bound. */
  lemma {:induction false} LoadDepsGrows(cat: Catalog, matches: Matcher, rank: map<string, nat>,
                                         reg: Registry, ds: seq<Dependency>, bound: nat)
    requires WellRanked(cat, rank)
    requires forall k :: 0 <= k < |ds| ==> Measure(cat, rank, ds[k].name) < bound
    ensures Grows(cat, reg, LoadDepsF(cat, matches, rank, reg, ds, bound).reg)
    ensures AddedBelow(cat, rank, reg, LoadDepsF(cat, matches, rank, reg, ds, bound).reg, bound)
    decreases bound, 0, |ds|
  {
    if ds != [] {
      var init := LoadDepsF(cat, matches, rank, reg, ds[..|ds| - 1], bound);
      LoadDepsGrows(cat, matches, rank, reg, ds[..|ds| - 1], bound);
      if init.outcome.Pass? {
        var d := ds[|ds| - 1];
        LoadModuleGrows(cat, matches, rank, init.reg, d.name, Some(d.range));
        GrowsTrans(cat, reg, init.reg, LoadModuleF(cat, matches, rank, init.reg, d.name, Some(d.range)).reg);
      }
    }
  }

  /** Loading the dependencies of a module that is not registered never
      registers the module itself: it ranks above all of them. */
  lemma NotReentrant(cat: Catalog, matches: Matcher, rank: map<string, nat>,
                     reg: Registry, name: string, ds: seq<Dependency>)
    requires WellRanked(cat, rank) && name in cat && cat[name].WithInfos?
    requires Deps(cat[name].infos) == Ok(ds) && name !in reg.modules
    ensures forall k :: 0 <= k < |ds| ==> Measure(cat, rank, ds[k].name) < Measure(cat, rank, name)
    ensures name !in LoadDepsF(cat, matches, rank, reg, ds, Measure(cat, rank, name)).reg.modules
  {
    DepsMeasure(cat, rank, name, ds);
    LoadDepsGrows(cat, matches, rank, reg, ds, Measure(cat, rank, name));
  }

  /** `load_module` of a registered name returns at once and changes nothing. */
  lemma AlreadyRegistered(cat: Catalog, matches: Matcher, rank: map<string, nat>,
                          reg: Registry, name: string, version: Option<string>)
    requires WellRanked(cat, rank) && name in reg.modules
    ensures LoadModuleF(cat, matches, rank, reg, name, version) == Run(Pass, reg)
  {
  }

  /** A module whose version is outside the range asked for raises before
      any dependency is loaded: both registries are unchanged. */
  lemma VersionMismatch(cat: Catalog, matches: Matcher, rank: map<string, nat>,
                        reg: Registry, name: string, range: string)
    requires WellRanked(cat, rank) && name !in reg.modules
    requires name in cat && cat[name].WithInfos?
    requires !matches(range, Version(cat[name].infos))
    ensures LoadModuleF(cat, matches, rank, reg, name, Some(range)) == Run(Fail(AttributeError), reg)
  {
  }

  /** A module that `load_module` passes on is registered. */
  lemma PassRegisters(cat: Catalog, matches: Matcher, rank: map<string, nat>,
                      reg: Registry, name: string, version: Option<string>)
    requires WellRanked(cat, rank)
    requires LoadModuleF(cat, matches, rank, reg, name, version).outcome.Pass?
    ensures name in LoadModuleF(cat, matches, rank, reg, name, version).reg.modules
  {
    if name !in reg.modules {
      var infos := InfosOf(cat, name).value;
      var ds := Deps(infos).value;
      DepsMeasure(cat, rank, name, ds);
    }
  }

  /** When the dependency loop passes, every dependency is registered. */
  lemma {:induction false} DepsRegistered(cat: Catalog, matches: Matcher, rank: map<string, nat>,
                                          reg: Registry, ds: seq<Dependency>, bound: nat)
    requires WellRanked(cat, rank)
    requires forall k :: 0 <= k < |ds| ==> Measure(cat, rank, ds[k].name) < bound
    requires LoadDepsF(cat, matches, rank, reg, ds, bound).outcome.Pass?
    ensures forall k :: 0 <= k < |ds| ==> ds[k].name in LoadDepsF(cat, matches, rank, reg, ds, bound).reg.modules
    decreases |ds|
  {
    if ds != [] {
      var init := LoadDepsF(cat, matches, rank, reg, ds[..|ds| - 1], bound);
      var d := ds[|ds| - 1];
      DepsRegistered(cat, matches, rank, reg, ds[..|ds| - 1], bound);
      LoadModuleGrows(cat, matches, rank, init.reg, d.name, Some(d.range));
      PassRegisters(cat, matches, rank, init.reg, d.name, Some(d.range));
      forall k | 0 <= k < |ds| - 1
        ensures ds[k].name in init.reg.modules
      {
        assert ds[..|ds| - 1][k] == ds[k];
      }
    }
  }

  /** A module loaded with a range raises only before it registers itself:
      a failing dependency is never registered. */
  lemma FailedDependencyUnregistered(cat: Catalog, matches: Matcher, rank: map<string, nat>,
                                     reg: Registry, name: string, range: string)
    requires WellRanked(cat, rank) && name !in reg.modules
    requires LoadModuleF(cat, matches, rank, reg, name, Some(range)).outcome.Fail?
    ensures name !in LoadModuleF(cat, matches, rank, reg, name, Some(range)).reg.modules
  {
    if InfosOf(cat, name).Ok? && Deps(InfosOf(cat, name).value).Ok? {
      NotReentrant(cat, matches, rank, reg, name, Deps(InfosOf(cat, name).value).value);
    }
  }

  /** Once its dependencies are loaded, a module that was not registered
      is registered last, after every one of them; it is dispatched to
      exactly when it is not a metamodule. Load succeeds, except for a
      metamodule loaded with no range (see `TopLevelMetamodule`). */
  lemma RegisteredAfterDeps(cat: Catalog, matches: Matcher, rank: map<string, nat>,
                            reg: Registry, name: string, version: Option<string>, ds: seq<Dependency>)
    requires WellRanked(cat, rank) && Sound(cat, reg) && name !in reg.modules
    requires name in cat && cat[name].WithInfos? && Deps(cat[name].infos) == Ok(ds)
    requires version.Some? ==> matches(version.value, Version(cat[name].infos))
    requires LoadDepsF(cat, matches, rank, reg, ds, Measure(cat, rank, name)).outcome.Pass?
    ensures |LoadModuleF(cat, matches, rank, reg, name, version).reg.modules| > 0
    ensures Last(LoadModuleF(cat, matches, rank, reg, name, version).reg.modules) == name
    ensures forall k :: 0 <= k < |ds| ==> ds[k].name in Init(LoadModuleF(cat, matches, rank, reg, name, version).reg.modules)
    ensures name in LoadModuleF(cat, matches, rank, reg, name, version).reg.dispatch <==> !IsMetamodule(cat[name].infos)
    ensures LoadModuleF(cat, matches, rank, reg, name, version).outcome.Pass?
            <==> !IsMetamodule(cat[name].infos) || version.Some?
  {
    var bound := Measure(cat, rank, name);
    NotReentrant(cat, matches, rank, reg, name, ds);
    DepsRegistered(cat, matches, rank, reg, ds, bound);
    LoadDepsGrows(cat, matches, rank, reg, ds, bound);
    var after := LoadDepsF(cat, matches, rank, reg, ds, bound);
    assert LoadModuleF(cat, matches, rank, reg, name, version)
           == Registered(after.reg, name, version, IsMetamodule(cat[name].infos));
    RegisteredShape(after.reg, name, version, IsMetamodule(cat[name].infos));
  }

  lemma RegisteredShape(reg: Registry, name: string, version: Option<string>, meta: bool)
    requires name !in reg.modules && name !in reg.dispatch
    ensures Registered(reg, name, version, meta).reg.modules == reg.modules + [name]
    ensures Init(reg.modules + [name]) == reg.modules && Last(reg.modules + [name]) == name
    ensures name in Registered(reg, name, version, meta).reg.dispatch <==> !meta
    ensures Registered(reg, name, version, meta).outcome.Pass? <==> !meta || version.Some?
  {
  }

  function Last(s: seq<string>): string
    requires |s| > 0
  {
    s[|s| - 1]
  }

  function Init(s: seq<string>): seq<string>
    requires |s| > 0
  {
    s[..|s| - 1]
  }

  /** When a dependency raises, the dependent is not registered, and the
      dependencies before it that loaded stay registered. */
  lemma DependencyFails(cat: Catalog, matches: Matcher, rank: map<string, nat>,
                        reg: Registry, name: string, version: Option<string>, ds: seq<Dependency>, j: nat)
    requires WellRanked(cat, rank) && name !in reg.modules
    requires name in cat && cat[name].WithInfos? && Deps(cat[name].infos) == Ok(ds)
    requires version.Some? ==> matches(version.value, Version(cat[name].infos))
    requires j < |ds|
    requires LoadDepsF(cat, matches, rank, reg, ds[..j], Measure(cat, rank, name)).outcome.Pass?
    requires LoadDepsF(cat, matches, rank, reg, ds[..j + 1], Measure(cat, rank, name)).outcome.Fail?
    ensures LoadModuleF(cat, matches, rank, reg, name, version).outcome.Fail?
    ensures name !in LoadModuleF(cat, matches, rank, reg, name, version).reg.modules
    ensures ds[j].name !in LoadModuleF(cat, matches, rank, reg, name, version).reg.modules
    ensures forall k :: 0 <= k < j ==> ds[k].name in LoadModuleF(cat, matches, rank, reg, name, version).reg.modules
  {
    var bound := Measure(cat, rank, name);
    NotReentrant(cat, matches, rank, reg, name, ds);
    LoadDepsFailsFrom(cat, matches, rank, reg, ds, bound, j + 1);
    var pre := LoadDepsF(cat, matches, rank, reg, ds[..j], bound);
    assert ds[..j + 1][..j] == ds[..j];
    assert ds[..j + 1][j] == ds[j];
    assert forall k :: 0 <= k < j ==> ds[..j][k] == ds[k];
    DepsRegistered(cat, matches, rank, reg, ds[..j], bound);
    LoadModuleGrows(cat, matches, rank, pre.reg, ds[j].name, Some(ds[j].range));
    if ds[j].name !in pre.reg.modules {
      FailedDependencyUnregistered(cat, matches, rank, pre.reg, ds[j].name, ds[j].range);
    }
  }

  /** A metamodule loaded with no range (as `load_modules` does) is
      registered and then raises: the lookup of "enabled_modules" is made in
      the registry of modules, where no module of that name exists
      (`KeyError`), or, when one does, the module object cannot be searched
      with `in` (`TypeError`). The configuration is never updated. */
  lemma TopLevelMetamodule(cat: Catalog, matches: Matcher, rank: map<string, nat>,
                           reg: Registry, name: string, ds: seq<Dependency>)
    requires WellRanked(cat, rank) && Sound(cat, reg) && name !in reg.modules
    requires name in cat && cat[name].WithInfos? && IsMetamodule(cat[name].infos)
    requires Deps(cat[name].infos) == Ok(ds)
    requires LoadDepsF(cat, matches, rank, reg, ds, Measure(cat, rank, name)).outcome.Pass?
    ensures name in LoadModuleF(cat, matches, rank, reg, name, None).reg.modules
    ensures LoadModuleF(cat, matches, rank, reg, name, None).outcome == Fail(KeyError)
            || LoadModuleF(cat, matches, rank, reg, name, None).outcome == Fail(TypeError)
    ensures "enabled_modules" !in LoadModuleF(cat, matches, rank, reg, name, None).reg.modules
            ==> LoadModuleF(cat, matches, rank, reg, name, None).outcome == Fail(KeyError)
  {
    RegisteredAfterDeps(cat, matches, rank, reg, name, None, ds);
  }

  /** `load_modules` only adds to the registries and keeps them sound. */
  lemma {:induction false} LoadAllGrows(cat: Catalog, matches: Matcher, rank: map<string, nat>,
                                        reg: Registry, names: seq<string>)
    requires WellRanked(cat, rank)
    ensures Grows(cat, reg, LoadAllF(cat, matches, rank, reg, names).reg)
    decreases |names|
  {
    if names != [] {
      var init := LoadAllF(cat, matches, rank, reg, names[..|names| - 1]);
      LoadAllGrows(cat, matches, rank, reg, names[..|names| - 1]);
      if init.outcome.Pass? {
        LoadModuleGrows(cat, matches, rank, init.reg, names[|names| - 1], None);
        GrowsTrans(cat, reg, init.reg, LoadModuleF(cat, matches, rank, init.reg, names[|names| - 1], None).reg);
      }
    }
  }

  /** When `load_modules` passes, every enabled module is registered. */
  lemma {:induction false} LoadAllRegisters(cat: Catalog, matches: Matcher, rank: map<string, nat>,
                                            reg: Registry, names: seq<string>)
    requires WellRanked(cat, rank)
    requires LoadAllF(cat, matches, rank, reg, names).outcome.Pass?
    ensures forall k :: 0 <= k < |names| ==> names[k] in LoadAllF(cat, matches, rank, reg, names).reg.modules
    decreases |names|
  {
    if names != [] {
      var init := LoadAllF(cat, matches, rank, reg, names[..|names| - 1]);
      var n := names[|names| - 1];
      LoadAllRegisters(cat, matches, rank, reg, names[..|names| - 1]);
      LoadModuleGrows(cat, matches, rank, init.reg, n, None);
      PassRegisters(cat, matches, rank, init.reg, n, None);
      forall k | 0 <= k < |names| - 1
        ensures names[k] in init.reg.modules
      {
        assert names[..|names| - 1][k] == names[k];
      }
    }
  }

  // ---------------------------------------------------------------------
  // Corrected loader: ranges always checked, a declared exception, and
  // metamodules recorded in the configuration

  /** The registries and the configured "enabled_modules" list. */
  datatype CheckedRun = CheckedRun(outcome: Outcome<Error>, reg: Registry, enabled: seq<string>)

  /** The version test of `load_module`, made also for a registered name.
      A module whose version is outside the range raises the declared
      `IncompatibleModuleError`. */
  predicate RangeFails(cat: Catalog, matches: Matcher, name: string, version: Option<string>) {
    version.Some? && !(InfosOf(cat, name).Ok? && matches(version.value, Version(InfosOf(cat, name).value)))
  }

  /** `load_module` with those corrections, and with line 130 reading
      `self.config["enabled_modules"]`: a metamodule loaded with no range is
      appended to the configured list unless it is already there. */
  function LoadChecked(cat: Catalog, matches: Matcher, rank: map<string, nat>,
                       reg: Registry, enabled: seq<string>, name: string, version: Option<string>): CheckedRun
    requires WellRanked(cat, rank)
    decreases Measure(cat, rank, name), 1, 0
  {
    if name in reg.modules then
      CheckedRun(if RangeFails(cat, matches, name, version) then Fail(IncompatibleModuleError) else Pass, reg, enabled)
    else match InfosOf(cat, name)
      case Err(e) => CheckedRun(Fail(e), reg, enabled)
      case Ok(infos) =>
        if RangeFails(cat, matches, name, version) then CheckedRun(Fail(IncompatibleModuleError), reg, enabled)
        else match Deps(infos)
          case Err(e) => CheckedRun(Fail(e), reg, enabled)
          case Ok(ds) =>
            DepsMeasure(cat, rank, name, ds);
            var after := LoadDepsChecked(cat, matches, rank, reg, enabled, ds, Measure(cat, rank, name));
            if after.outcome.Fail? then after
            else RegisteredChecked(after.reg, after.enabled, name, version, IsMetamodule(infos))
  }

  function RegisteredChecked(reg: Registry, enabled: seq<string>, name: string, version: Option<string>, meta: bool): CheckedRun {
    var modules := Insert(reg.modules, name);
    if !meta then CheckedRun(Pass, Registry(modules, Insert(reg.dispatch, name)), enabled)
    else if version.None? && name !in enabled then CheckedRun(Pass, Registry(modules, reg.dispatch), enabled + [name])
    else CheckedRun(Pass, Registry(modules, reg.dispatch), enabled)
  }

  function LoadDepsChecked(cat: Catalog, matches: Matcher, rank: map<string, nat>,
                           reg: Registry, enabled: seq<string>, ds: seq<Dependency>, bound: nat): CheckedRun
    requires WellRanked(cat, rank)
    requires forall k :: 0 <= k < |ds| ==> Measure(cat, rank, ds[k].name) < bound
    decreases bound, 0, |ds|
  {
    if ds == [] then CheckedRun(Pass, reg, enabled)
    else
      var init := LoadDepsChecked(cat, matches, rank, reg, enabled, ds[..|ds| - 1], bound);
      if init.outcome.Fail? then init
      else LoadChecked(cat, matches, rank, init.reg, init.enabled, ds[|ds| - 1].name, Some(ds[|ds| - 1].range))
  }

  /** The module has metadata and its version lies in `range`. */
  predicate Satisfies(cat: Catalog, matches: Matcher, name: string, range: string) {
    name in cat && cat[name].WithInfos? && matches(range, Version(cat[name].infos))
  }

  /** A load with a range passes only for a module whose version lies in
      that range, whether or not it was registered before. */
  lemma CheckedHonoursRange(cat: Catalog, matches: Matcher, rank: map<string, nat>,
                            reg: Registry, enabled: seq<string>, name: string, range: string)
    requires WellRanked(cat, rank)
    requires LoadChecked(cat, matches, rank, reg, enabled, name, Some(range)).outcome.Pass?
    ensures Satisfies(cat, matches, name, range)
  {
  }

  /** Hence a dependency loop that passes has found every dependency in the
      range its dependent requires. */
  lemma {:induction false} CheckedDepsHonoured(cat: Catalog, matches: Matcher, rank: map<string, nat>,
                                               reg: Registry, enabled: seq<string>, ds: seq<Dependency>, bound: nat)
    requires WellRanked(cat, rank)
    requires forall k :: 0 <= k < |ds| ==> Measure(cat, rank, ds[k].name) < bound
    requires LoadDepsChecked(cat, matches, rank, reg, enabled, ds, bound).outcome.Pass?
    ensures forall k :: 0 <= k < |ds| ==> Satisfies(cat, matches, ds[k].name, ds[k].range)
    decreases |ds|
  {
    if ds != [] {
      var init := ds[..|ds| - 1];
      var pre := LoadDepsChecked(cat, matches, rank, reg, enabled, init, bound);
      CheckedDepsHonoured(cat, matches, rank, reg, enabled, init, bound);
      CheckedHonoursRange(cat, matches, rank, pre.reg, pre.enabled, ds[|ds| - 1].name, ds[|ds| - 1].range);
      assert forall k :: 0 <= k < |init| ==> init[k] == ds[k];
    }
  }

  /** An unregistered module outside the range raises the declared
      exception and changes nothing. */
  lemma CheckedMismatch(cat: Catalog, matches: Matcher, rank: map<string, nat>,
                        reg: Registry, enabled: seq<string>, name: string, range: string)
    requires WellRanked(cat, rank)
    requires name in cat && cat[name].WithInfos? && !matches(range, Version(cat[name].infos))
    ensures LoadChecked(cat, matches, rank, reg, enabled, name, Some(range)) == CheckedRun(Fail(IncompatibleModuleError), reg, enabled)
  {
  }

  /** A metamodule loaded with no range, once its dependencies pass, is
      registered, not dispatched to, and recorded among the enabled
      modules; the load passes. */
  lemma CheckedMetamodule(cat: Catalog, matches: Matcher, rank: map<string, nat>,
                          reg: Registry, enabled: seq<string>, name: string, ds: seq<Dependency>)
    requires WellRanked(cat, rank) && name !in reg.modules
    requires name in cat && cat[name].WithInfos? && IsMetamodule(cat[name].infos)
    requires Deps(cat[name].infos) == Ok(ds)
    requires LoadDepsChecked(cat, matches, rank, reg, enabled, ds, Measure(cat, rank, name)).outcome.Pass?
    ensures LoadChecked(cat, matches, rank, reg, enabled, name, None).outcome == Pass
    ensures name in LoadChecked(cat, matches, rank, reg, enabled, name, None).reg.modules
    ensures name in LoadChecked(cat, matches, rank, reg, enabled, name, None).enabled
    ensures LoadChecked(cat, matches, rank, reg, enabled, name, None).reg.dispatch
            == LoadDepsChecked(cat, matches, rank, reg, enabled, ds, Measure(cat, rank, name)).reg.dispatch
  {
    var after := LoadDepsChecked(cat, matches, rank, reg, enabled, ds, Measure(cat, rank, name));
    assert LoadChecked(cat, matches, rank, reg, enabled, name, None)
           == RegisteredChecked(after.reg, after.enabled, name, None, true);
  }
}
