/**
 * The configuration container: a table from option names to field objects,
 * in registration order, with `register`, the bulk `set`, `save` to and
 * `load` from a file, and `config[name]`. Both revisions are modelled: the
 * current one (src/config/base.py) skips unknown names in `set`, tolerates a
 * missing file and saves after loading; the legacy one (config/base.py)
 * raises `KeyError` for an unknown name and `FileNotFoundError` for a
 * missing file, and does not save after loading.
 *
 * The file is the table that the TOML encoder writes and reads back: one
 * `name = value` line per option, in order. The encoder writes no line for
 * a `None` value; any other value is read back as it was written.
 */
module Configs {
  import opened Wrappers
  import opened Errors
  import opened PyValues
  import opened FieldTypes
  import opened FieldOps
  import RoundTrip
  import DictLaws

  /** One registered option: its field class and the field's state. */
  datatype Slot = Slot(spec: FieldSpec, state: FieldState)

  /** One `name = value` line of the configuration file. */
  datatype Setting = Setting(name: string, value: Value)

  /** Every slot is a field that its class can build and whose state has its shape. */
  predicate SlotsFit(rev: Revision, fields: map<string, Slot>) {
    forall n :: n in fields ==> Construct(rev, fields[n].spec).Ok? && Fits(rev, fields[n].spec, fields[n].state)
  }

  /** The same names, each with the same field class. */
  predicate SameSpecs(a: map<string, Slot>, b: map<string, Slot>) {
    a.Keys == b.Keys && forall n :: n in a ==> b[n].spec == a[n].spec
  }

  predicate Distinct(names: seq<string>) {
    forall i, j :: 0 <= i < j < |names| ==> names[i] != names[j]
  }

  // ---------------------------------------------------------------------
  // set
  // ---------------------------------------------------------------------

  /** What the bulk `set` raises, if anything, and the fields after it. */
  datatype SetRun = SetRun(outcome: Outcome<Error>, fields: map<string, Slot>)

  /** One iteration of `for k, v in values.items()`: `self.fields[k].set(v)`.
      An unknown name raises `KeyError`, which the current revision
      swallows, together with any `KeyError` the field raises. */
  function SetOne(rev: Revision, c: Client, fields: map<string, Slot>, x: Setting): SetRun {
    if x.name !in fields then
      if rev == Current then SetRun(Pass, fields) else SetRun(Fail(KeyError), fields)
    else
      match SetF(rev, c, fields[x.name].spec, fields[x.name].state, x.value)
      case Ok(st) => SetRun(Pass, fields[x.name := Slot(fields[x.name].spec, st)])
      case Err(e) => if rev == Current && e == KeyError then SetRun(Pass, fields) else SetRun(Fail(e), fields)
  }

  /** The bulk `set`: the settings in order, stopping at the first exception;
      the fields set before it keep their new state. */
  function SetAll(rev: Revision, c: Client, fields: map<string, Slot>, xs: seq<Setting>): SetRun
    decreases |xs|
  {
    if |xs| == 0 then SetRun(Pass, fields)
    else
      var init := SetAll(rev, c, fields, xs[..|xs| - 1]);
      if init.outcome.Fail? then init else SetOne(rev, c, init.fields, xs[|xs| - 1])
  }

  /** One setting keeps every field class and every state in the shape of its class. */
  lemma SetOneFits(rev: Revision, c: Client, fields: map<string, Slot>, x: Setting)
    requires SlotsFit(rev, fields)
    ensures SlotsFit(rev, SetOne(rev, c, fields, x).fields) && SameSpecs(fields, SetOne(rev, c, fields, x).fields)
  {
    if x.name in fields {
      var s := fields[x.name];
      var r := SetF(rev, c, s.spec, s.state, x.value);
      if r.Ok? {
        var after := fields[x.name := Slot(s.spec, r.value)];
        assert SetOne(rev, c, fields, x).fields == after;
        assert forall n :: n in after ==> after[n] == if n == x.name then Slot(s.spec, r.value) else fields[n];
      }
    }
  }

  /** So does the bulk `set`. */
  lemma {:induction false} SetAllFits(rev: Revision, c: Client, fields: map<string, Slot>, xs: seq<Setting>)
    requires SlotsFit(rev, fields)
    ensures SlotsFit(rev, SetAll(rev, c, fields, xs).fields) && SameSpecs(fields, SetAll(rev, c, fields, xs).fields)
    decreases |xs|
  {
    if |xs| > 0 {
      SetAllFits(rev, c, fields, xs[..|xs| - 1]);
      SetOneFits(rev, c, SetAll(rev, c, fields, xs[..|xs| - 1]).fields, xs[|xs| - 1]);
    }
  }

  // ---------------------------------------------------------------------
  // save
  // ---------------------------------------------------------------------

  /** `{k: v.to_save() for k, v in self.fields.items()}` as the file keeps
      it: every `to_save` runs first, and a `None` value gets no line. */
  function SaveAll(rev: Revision, fields: map<string, Slot>, names: seq<string>): Result<seq<Setting>, Error>
    requires SlotsFit(rev, fields) && forall k :: 0 <= k < |names| ==> names[k] in fields
    decreases |names|
  {
    if |names| == 0 then Ok([])
    else
      match SaveAll(rev, fields, names[..|names| - 1])
      case Err(e) => Err(e)
      case Ok(acc) =>
        match ToSaveF(rev, fields[names[|names| - 1]].spec, fields[names[|names| - 1]].state)
        case Err(e) => Err(e)
        case Ok(v) => Ok(if v == VNone then acc else acc + [Setting(names[|names| - 1], v)])
  }

  /** The names the lines of a file give, in order. */
  function NamesOf(t: seq<Setting>): (r: seq<string>)
    ensures |r| == |t| && forall k :: 0 <= k < |t| ==> r[k] == t[k].name
  {
    seq(|t|, j requires 0 <= j < |t| => t[j].name)
  }

  /** The file after `save`: it is opened for writing before the values are
      computed, so an exception leaves it empty. */
  function Written(r: Result<seq<Setting>, Error>): seq<Setting> {
    if r.Ok? then r.value else []
  }

  /** The fields of a configuration that registered the same classes under
      the same names and did nothing else. */
  function FreshSlots(rev: Revision, fields: map<string, Slot>): (r: map<string, Slot>)
    requires SlotsFit(rev, fields)
    ensures SlotsFit(rev, r) && SameSpecs(fields, r)
  {
    map n | n in fields :: Slot(fields[n].spec, Construct(rev, fields[n].spec).value)
  }

  // ---------------------------------------------------------------------
  // The container
  // ---------------------------------------------------------------------

  class Config {
    const rev: Revision
    /** The names of `self.fields`, in the order the dict keeps them. */
    var names: seq<string>
    /** `self.fields`, each field object held as its class and state. */
    var fields: map<string, Slot>

    ghost predicate Valid()
      reads this
    {
      && Distinct(names)
      && (forall n :: n in fields <==> n in names)
      && SlotsFit(rev, fields)
    }

    /** `Config(path)`: no option registered; the path only names the file. */
    constructor (rev: Revision)
      ensures Valid() && this.rev == rev && names == [] && fields == map[]
    {
      this.rev := rev;
      names := [];
      fields := map[];
    }

    /** `register(name, type_)`: a fresh field replaces any earlier one of that
        name, which keeps its place in the order; if the constructor raises,
        nothing changes. */
    method Register(name: string, spec: FieldSpec) returns (r: Outcome<Error>)
      requires Valid()
      modifies this
      ensures Valid()
      ensures Construct(rev, spec).Err? ==>
                r == Fail(Construct(rev, spec).error) && names == old(names) && fields == old(fields)
      ensures Construct(rev, spec).Ok? ==>
                && r == Pass
                && fields == old(fields)[name := Slot(spec, Construct(rev, spec).value)]
                && names == if name in old(names) then old(names) else old(names) + [name]
    {
      match Construct(rev, spec) {
        case Err(e) => return Fail(e);
        case Ok(st) =>
          if name !in fields {
            names := names + [name];
          }
          fields := fields[name := Slot(spec, st)];
          return Pass;
      }
    }

    /** `set(values)`: each setting in order is passed to its field's `set`. */
    method Set(c: Client, xs: seq<Setting>) returns (r: Outcome<Error>)
      requires Valid()
      modifies this
      ensures Valid() && names == old(names)
      ensures r == SetAll(rev, c, old(fields), xs).outcome && fields == SetAll(rev, c, old(fields), xs).fields
    {
      ghost var f0 := fields;
      for i := 0 to |xs|
        invariant Valid() && names == old(names)
        invariant SetAll(rev, c, f0, xs[..i]) == SetRun(Pass, fields)
      {
        assert xs[..i + 1][..i] == xs[..i];
        var step := SetField(c, xs[i]);
        if step.Fail? {
          SetAllFailsFrom(rev, c, f0, xs, i + 1);
          return step;
        }
      }
      assert xs[..|xs|] == xs;
      return Pass;
    }

    /** One iteration of the bulk `set`: `self.fields[k].set(v)`, with the
        `KeyError` handling of the revision. */
    method SetField(c: Client, x: Setting) returns (r: Outcome<Error>)
      requires Valid()
      modifies this
      ensures Valid() && names == old(names)
      ensures r == SetOne(rev, c, old(fields), x).outcome && fields == SetOne(rev, c, old(fields), x).fields
    {
      SetOneFits(rev, c, fields, x);
      if x.name !in fields {
        return if rev == Current then Pass else Fail(KeyError);
      }
      var s := fields[x.name];
      match SetF(rev, c, s.spec, s.state, x.value) {
        case Ok(st) =>
          fields := fields[x.name := Slot(s.spec, st)];
          return Pass;
        case Err(e) =>
          return if rev == Current && e == KeyError then Pass else Fail(e);
      }
    }

    /** `save()`: the file content it writes, and the exception it raises. */
    method Save() returns (file: seq<Setting>, r: Outcome<Error>)
      requires Valid()
      ensures SaveAll(rev, fields, names).Ok? ==> r == Pass && file == SaveAll(rev, fields, names).value
      ensures SaveAll(rev, fields, names).Err? ==> r == Fail(SaveAll(rev, fields, names).error) && file == []
    {
      var acc: seq<Setting> := [];
      for i := 0 to |names|
        invariant SaveAll(rev, fields, names[..i]) == Ok(acc)
      {
        assert names[..i + 1][..i] == names[..i];
        var s := fields[names[i]];
        match ToSaveF(rev, s.spec, s.state) {
          case Err(e) =>
            SaveAllFailsFrom(rev, fields, names, i + 1);
            return [], Fail(e);
          case Ok(v) =>
            if v != VNone {
              acc := acc + [Setting(names[i], v)];
            }
        }
      }
      assert names[..|names|] == names;
      return acc, Pass;
    }

    /** `load()`, given what the file holds (`None` when it does not exist):
        the settings go through the bulk `set`. The current revision skips a
        missing file and then saves, unless the `set` raised; the result says
        what the file holds afterwards when it was written. */
    method Load(c: Client, file: Option<seq<Setting>>) returns (r: Outcome<Error>, written: Option<seq<Setting>>)
      requires Valid()
      modifies this
      ensures Valid() && names == old(names)
      ensures file.None? ==> fields == old(fields)
      ensures file.Some? ==> fields == SetAll(rev, c, old(fields), file.value).fields
      ensures rev == Legacy && file.None? ==> r == Fail(FileNotFoundError) && written.None?
      ensures rev == Legacy && file.Some? ==> r == SetAll(rev, c, old(fields), file.value).outcome && written.None?
      ensures rev == Current && file.Some? && SetAll(rev, c, old(fields), file.value).outcome.Fail? ==>
                r == SetAll(rev, c, old(fields), file.value).outcome && written.None?
      ensures rev == Current && (file.None? || SetAll(rev, c, old(fields), file.value).outcome.Pass?) ==>
                && written == Some(Written(SaveAll(rev, fields, names)))
                && r == (if SaveAll(rev, fields, names).Ok? then Pass else Fail(SaveAll(rev, fields, names).error))
    {
      if file.None? {
        if rev == Legacy {
          return Fail(FileNotFoundError), None;
        }
      } else {
        var applied := Set(c, file.value);
        if applied.Fail? || rev == Legacy {
          return applied, None;
        }
      }
      var content, saved := Save();
      return saved, Some(content);
    }

    /** `config[name]`: `get()` of the named field, which may update its
        state; an unknown name raises `KeyError`. */
    method GetItem(c: Client, name: string) returns (r: Result<Value, Error>)
      requires Valid()
      modifies this
      ensures Valid() && names == old(names)
      ensures name !in old(fields) ==> r == Err(KeyError) && fields == old(fields)
      ensures name in old(fields) ==>
                && r == GetF(rev, c, old(fields)[name].spec, old(fields)[name].state).result
                && fields == old(fields)[name := Slot(old(fields)[name].spec,
                                                     GetF(rev, c, old(fields)[name].spec, old(fields)[name].state).state)]
    {
      if name !in fields {
        return Err(KeyError);
      }
      var s := fields[name];
      var g := GetF(rev, c, s.spec, s.state);
      fields := fields[name := Slot(s.spec, g.state)];
      return g.result;
    }
  }

  // ---------------------------------------------------------------------
  // Loops that stop at an exception
  // ---------------------------------------------------------------------

  lemma {:induction false} SetAllFailsFrom(rev: Revision, c: Client, fields: map<string, Slot>, xs: seq<Setting>, i: nat)
    requires i <= |xs| && SetAll(rev, c, fields, xs[..i]).outcome.Fail?
    ensures SetAll(rev, c, fields, xs) == SetAll(rev, c, fields, xs[..i])
    decreases |xs|
  {
    if i == |xs| {
      assert xs[..i] == xs;
    } else {
      var init := xs[..|xs| - 1];
      assert init[..i] == xs[..i];
      SetAllFailsFrom(rev, c, fields, init, i);
    }
  }

  lemma {:induction false} SaveAllFailsFrom(rev: Revision, fields: map<string, Slot>, names: seq<string>, i: nat)
    requires SlotsFit(rev, fields) && forall k :: 0 <= k < |names| ==> names[k] in fields
    requires i <= |names| && SaveAll(rev, fields, names[..i]).Err?
    ensures SaveAll(rev, fields, names) == SaveAll(rev, fields, names[..i])
    decreases |names|
  {
    if i == |names| {
      assert names[..i] == names;
    } else {
      var init := names[..|names| - 1];
      assert init[..i] == names[..i];
      SaveAllFailsFrom(rev, fields, init, i);
    }
  }

  // ---------------------------------------------------------------------
  // What the container promises
  // ---------------------------------------------------------------------

  /** A setting for a name that was never registered: the current revision
      skips it, the legacy one raises `KeyError`; neither changes a field. */
  lemma SetOneUnknown(rev: Revision, c: Client, fields: map<string, Slot>, x: Setting)
    requires SlotsFit(rev, fields) && x.name !in fields
    ensures SetOne(rev, c, fields, x) == SetRun(if rev == Current then Pass else Fail(KeyError), fields)
  {
  }

  /** A setting for a registered name runs that field's `set`: on success only
      that field changes; an exception other than a swallowed `KeyError`
      propagates and changes nothing. */
  lemma SetOneKnown(rev: Revision, c: Client, fields: map<string, Slot>, x: Setting)
    requires SlotsFit(rev, fields) && x.name in fields
    ensures SetF(rev, c, fields[x.name].spec, fields[x.name].state, x.value).Ok? ==>
              SetOne(rev, c, fields, x)
              == SetRun(Pass, fields[x.name := Slot(fields[x.name].spec, SetF(rev, c, fields[x.name].spec, fields[x.name].state, x.value).value)])
    ensures SetF(rev, c, fields[x.name].spec, fields[x.name].state, x.value).Err? ==>
              SetOne(rev, c, fields, x).fields == fields
              && (SetOne(rev, c, fields, x).outcome.Fail?
                  <==> !(rev == Current && SetF(rev, c, fields[x.name].spec, fields[x.name].state, x.value).error == KeyError))
  {
  }

  /** The bulk `set` raised at setting `j`: the settings before it all went
      through, and its own run decides the result. */
  predicate FailsAt(rev: Revision, c: Client, fields: map<string, Slot>, xs: seq<Setting>, j: int)
  {
    && 0 <= j < |xs|
    && SetAll(rev, c, fields, xs[..j]).outcome.Pass?
    && SetAll(rev, c, fields, xs) == SetOne(rev, c, SetAll(rev, c, fields, xs[..j]).fields, xs[j])
  }

  /** `set` is not atomic: when it raises, it raised at one setting, and the
      settings before it stay applied. */
  lemma {:induction false} SetAllFailAt(rev: Revision, c: Client, fields: map<string, Slot>, xs: seq<Setting>)
    requires SetAll(rev, c, fields, xs).outcome.Fail?
    ensures exists j :: FailsAt(rev, c, fields, xs, j)
    decreases |xs|
  {
    var init := xs[..|xs| - 1];
    if SetAll(rev, c, fields, init).outcome.Fail? {
      SetAllFailAt(rev, c, fields, init);
      var j :| FailsAt(rev, c, fields, init, j);
      FailsAtExtends(rev, c, fields, xs, j);
    } else {
      assert FailsAt(rev, c, fields, xs, |xs| - 1);
    }
  }

  lemma FailsAtExtends(rev: Revision, c: Client, fields: map<string, Slot>, xs: seq<Setting>, j: int)
    requires |xs| > 0
    requires SetAll(rev, c, fields, xs[..|xs| - 1]).outcome.Fail? && FailsAt(rev, c, fields, xs[..|xs| - 1], j)
    ensures FailsAt(rev, c, fields, xs, j)
  {
    assert xs[..|xs| - 1][..j] == xs[..j];
  }

  /** `save` raises exactly when some field's `to_save` raises. */
  lemma {:induction false} SaveAllOk(rev: Revision, fields: map<string, Slot>, names: seq<string>)
    requires SlotsFit(rev, fields) && forall k :: 0 <= k < |names| ==> names[k] in fields
    ensures SaveAll(rev, fields, names).Ok?
            <==> forall k :: 0 <= k < |names| ==> ToSaveF(rev, fields[names[k]].spec, fields[names[k]].state).Ok?
    decreases |names|
  {
    if |names| > 0 {
      var init := names[..|names| - 1];
      SaveAllOk(rev, fields, init);
      assert forall k :: 0 <= k < |init| ==> init[k] == names[k];
    }
  }

  /** Every line `save` writes is a registered name with the value its
      field's `to_save` returns, which is not `None`. */
  lemma {:induction false} SaveAllLines(rev: Revision, fields: map<string, Slot>, names: seq<string>)
    requires SlotsFit(rev, fields) && forall k :: 0 <= k < |names| ==> names[k] in fields
    requires SaveAll(rev, fields, names).Ok?
    ensures forall k :: 0 <= k < |SaveAll(rev, fields, names).value| ==>
              && SaveAll(rev, fields, names).value[k].name in names
              && SaveAll(rev, fields, names).value[k].value != VNone
              && ToSaveF(rev, fields[SaveAll(rev, fields, names).value[k].name].spec,
                         fields[SaveAll(rev, fields, names).value[k].name].state)
                 == Ok(SaveAll(rev, fields, names).value[k].value)
    decreases |names|
  {
    if |names| > 0 {
      var init := names[..|names| - 1];
      SaveAllLines(rev, fields, init);
      assert forall n :: n in init ==> n in names;
    }
  }

  /** Every registered field whose `to_save` is not `None` gets a line. */
  lemma {:induction false} SaveAllComplete(rev: Revision, fields: map<string, Slot>, names: seq<string>)
    requires SlotsFit(rev, fields) && forall k :: 0 <= k < |names| ==> names[k] in fields
    requires SaveAll(rev, fields, names).Ok?
    ensures forall k :: 0 <= k < |names| && ToSaveF(rev, fields[names[k]].spec, fields[names[k]].state).Ok?
                        && ToSaveF(rev, fields[names[k]].spec, fields[names[k]].state).value != VNone ==>
              names[k] in NamesOf(SaveAll(rev, fields, names).value)
    decreases |names|
  {
    if |names| > 0 {
      var init := names[..|names| - 1];
      assert forall k :: 0 <= k < |init| ==> init[k] == names[k];
      SaveAllComplete(rev, fields, init);
      var t0 := SaveAll(rev, fields, init).value;
      var t := SaveAll(rev, fields, names).value;
      assert t[..|t0|] == t0;
      assert forall n :: n in NamesOf(t0) ==> n in NamesOf(t) by {
        forall n | n in NamesOf(t0) ensures n in NamesOf(t) {
          var j :| 0 <= j < |t0| && NamesOf(t0)[j] == n;
          assert NamesOf(t)[j] == n;
        }
      }
      if t != t0 {
        assert NamesOf(t)[|t| - 1] == names[|names| - 1];
      }
    }
  }

  /** No name gets two lines. */
  lemma {:induction false} SaveAllDistinct(rev: Revision, fields: map<string, Slot>, names: seq<string>)
    requires SlotsFit(rev, fields) && forall k :: 0 <= k < |names| ==> names[k] in fields
    requires Distinct(names) && SaveAll(rev, fields, names).Ok?
    ensures Distinct(NamesOf(SaveAll(rev, fields, names).value))
    decreases |names|
  {
    if |names| > 0 {
      var init := names[..|names| - 1];
      assert forall k :: 0 <= k < |init| ==> init[k] == names[k];
      SaveAllDistinct(rev, fields, init);
      SaveAllLines(rev, fields, init);
      var t0 := SaveAll(rev, fields, init).value;
      var t := SaveAll(rev, fields, names).value;
      assert t[..|t0|] == t0;
      assert names[|names| - 1] !in init;
    }
  }

  // ---------------------------------------------------------------------
  // Save, then load into a fresh configuration
  // ---------------------------------------------------------------------

  /** The fresh fields, with the given names already restored. */
  function Overlay(fields: map<string, Slot>, done: seq<string>, blank: map<string, Slot>): (r: map<string, Slot>)
    requires blank.Keys == fields.Keys
    ensures r.Keys == fields.Keys
  {
    map n | n in blank :: if n in done then fields[n] else blank[n]
  }

  /** Every slot is one that the file brings back. */
  predicate AllReset(rev: Revision, c: Client, fields: map<string, Slot>) {
    forall n :: n in fields ==> RoundTrip.Resets(rev, c, fields[n].spec, fields[n].state)
  }

  /** Applying the lines `save` writes for the names `done` to fresh
      fields passes and restores exactly those names. */
  predicate Restored(rev: Revision, c: Client, fields: map<string, Slot>, done: seq<string>)
    requires SlotsFit(rev, fields)
  {
    && (forall k :: 0 <= k < |done| ==> done[k] in fields)
    && SaveAll(rev, fields, done).Ok?
    && SetAll(rev, c, FreshSlots(rev, fields), SaveAll(rev, fields, done).value)
       == SetRun(Pass, Overlay(fields, done, FreshSlots(rev, fields)))
  }

  /** Applying the lines `save` writes for the first `i` names restores those names. */
  lemma {:induction false} ReloadPrefix(rev: Revision, c: Client, fields: map<string, Slot>, names: seq<string>, i: nat)
    requires SlotsFit(rev, fields) && Distinct(names) && forall k :: 0 <= k < |names| ==> names[k] in fields
    requires AllReset(rev, c, fields) && i <= |names|
    ensures Restored(rev, c, fields, names[..i])
  {
    if i == 0 {
      assert Overlay(fields, names[..0], FreshSlots(rev, fields)) == FreshSlots(rev, fields);
    } else {
      ReloadPrefix(rev, c, fields, names, i - 1);
      ReloadStep(rev, c, fields, names, i);
    }
  }

  lemma ReloadStep(rev: Revision, c: Client, fields: map<string, Slot>, names: seq<string>, i: nat)
    requires SlotsFit(rev, fields) && Distinct(names) && forall k :: 0 <= k < |names| ==> names[k] in fields
    requires AllReset(rev, c, fields) && 0 < i <= |names|
    requires Restored(rev, c, fields, names[..i - 1])
    ensures Restored(rev, c, fields, names[..i])
  {
    var done := names[..i - 1];
    var n := names[i - 1];
    assert names[..i] == done + [n];
    assert n !in done;
    ReloadOneMore(rev, c, fields, done, n);
  }

  lemma ReloadOneMore(rev: Revision, c: Client, fields: map<string, Slot>, done: seq<string>, n: string)
    requires SlotsFit(rev, fields) && n in fields && n !in done
    requires RoundTrip.Resets(rev, c, fields[n].spec, fields[n].state)
    requires Restored(rev, c, fields, done)
    ensures Restored(rev, c, fields, done + [n])
  {
    var blank := FreshSlots(rev, fields);
    var before := Overlay(fields, done, blank);
    SaveAllSnoc(rev, fields, done, n);
    if ToSaveF(rev, fields[n].spec, fields[n].state).value == VNone {
      OverlayFresh(fields, done, blank, n);
    } else {
      var line := Setting(n, ToSaveF(rev, fields[n].spec, fields[n].state).value);
      SetAllSnoc(rev, c, blank, SaveAll(rev, fields, done).value, line);
      ReloadLine(rev, c, fields, before, n);
      OverlayAdd(fields, done, blank, n);
    }
  }

  /** Restoring one more name overlays its field. */
  lemma OverlayAdd(fields: map<string, Slot>, done: seq<string>, blank: map<string, Slot>, n: string)
    requires blank.Keys == fields.Keys && n in fields
    ensures Overlay(fields, done, blank)[n := fields[n]] == Overlay(fields, done + [n], blank)
  {
  }

  /** A name whose field is still fresh needs nothing restored. */
  lemma OverlayFresh(fields: map<string, Slot>, done: seq<string>, blank: map<string, Slot>, n: string)
    requires blank.Keys == fields.Keys && n in fields && blank[n] == fields[n]
    ensures Overlay(fields, done, blank) == Overlay(fields, done + [n], blank)
  {
  }

  /** `save` of one more name adds that name's line, unless its value is `None`. */
  lemma SaveAllSnoc(rev: Revision, fields: map<string, Slot>, names: seq<string>, n: string)
    requires SlotsFit(rev, fields) && (forall k :: 0 <= k < |names| ==> names[k] in fields) && n in fields
    requires SaveAll(rev, fields, names).Ok? && ToSaveF(rev, fields[n].spec, fields[n].state).Ok?
    ensures SaveAll(rev, fields, names + [n])
            == Ok(if ToSaveF(rev, fields[n].spec, fields[n].state).value == VNone then SaveAll(rev, fields, names).value
                  else SaveAll(rev, fields, names).value + [Setting(n, ToSaveF(rev, fields[n].spec, fields[n].state).value)])
  {
    assert (names + [n])[..|names|] == names;
  }

  /** The bulk `set` of one more setting runs it on the fields the others left. */
  lemma SetAllSnoc(rev: Revision, c: Client, fields: map<string, Slot>, xs: seq<Setting>, x: Setting)
    requires SetAll(rev, c, fields, xs).outcome.Pass?
    ensures SetAll(rev, c, fields, xs + [x]) == SetOne(rev, c, SetAll(rev, c, fields, xs).fields, x)
  {
    assert (xs + [x])[..|xs|] == xs;
  }

  /** The line of a field that the file brings back restores that field
      when it still is fresh. */
  lemma ReloadLine(rev: Revision, c: Client, fields: map<string, Slot>, before: map<string, Slot>, n: string)
    requires n in fields && n in before && RoundTrip.Resets(rev, c, fields[n].spec, fields[n].state)
    requires Construct(rev, fields[n].spec).Ok?
    requires before[n] == Slot(fields[n].spec, Construct(rev, fields[n].spec).value)
    requires ToSaveF(rev, fields[n].spec, fields[n].state).value != VNone
    ensures SetOne(rev, c, before, Setting(n, ToSaveF(rev, fields[n].spec, fields[n].state).value))
            == SetRun(Pass, before[n := fields[n]])
  {
  }

  /** Save, then load into a configuration with the same registrations:
      when every field is one the file brings back, every field is restored. */
  lemma SaveLoadRestores(rev: Revision, c: Client, fields: map<string, Slot>, names: seq<string>)
    requires SlotsFit(rev, fields) && Distinct(names) && forall n :: n in fields <==> n in names
    requires AllReset(rev, c, fields)
    ensures SaveAll(rev, fields, names).Ok?
    ensures SetAll(rev, c, FreshSlots(rev, fields), SaveAll(rev, fields, names).value) == SetRun(Pass, fields)
  {
    ReloadPrefix(rev, c, fields, names, |names|);
    assert names[..|names|] == names;
    assert Overlay(fields, names, FreshSlots(rev, fields)) == fields;
  }

  /** Every field class is one whose state the file brings back. */
  predicate AllResettable(rev: Revision, fields: map<string, Slot>) {
    forall n :: n in fields ==> RoundTrip.Resettable(rev, fields[n].spec) && WellFormed(rev, fields[n].spec)
  }

  /** A fresh configuration of such classes is brought back by its file. */
  lemma FreshAllReset(rev: Revision, c: Client, fields: map<string, Slot>)
    requires SlotsFit(rev, fields) && AllResettable(rev, fields)
    ensures AllReset(rev, c, FreshSlots(rev, fields))
  {
    forall n | n in fields
      ensures RoundTrip.Resets(rev, c, fields[n].spec, Construct(rev, fields[n].spec).value)
    {
      RoundTrip.FreshResets(rev, c, fields[n].spec);
    }
  }

  /** The bulk `set` keeps every field one that the file brings back. */
  lemma {:induction false} SetAllKeepsReset(rev: Revision, c: Client, fields: map<string, Slot>, xs: seq<Setting>)
    requires SlotsFit(rev, fields) && AllResettable(rev, fields) && AllReset(rev, c, fields)
    ensures AllResettable(rev, SetAll(rev, c, fields, xs).fields) && AllReset(rev, c, SetAll(rev, c, fields, xs).fields)
    decreases |xs|
  {
    if |xs| > 0 {
      SetAllKeepsReset(rev, c, fields, xs[..|xs| - 1]);
      SetAllFits(rev, c, fields, xs[..|xs| - 1]);
      SetOneKeepsReset(rev, c, SetAll(rev, c, fields, xs[..|xs| - 1]).fields, xs[|xs| - 1]);
    }
  }

  lemma SetOneKeepsReset(rev: Revision, c: Client, fields: map<string, Slot>, x: Setting)
    requires SlotsFit(rev, fields) && AllResettable(rev, fields) && AllReset(rev, c, fields)
    ensures AllResettable(rev, SetOne(rev, c, fields, x).fields) && AllReset(rev, c, SetOne(rev, c, fields, x).fields)
  {
    if x.name in fields && SetF(rev, c, fields[x.name].spec, fields[x.name].state, x.value).Ok? {
      RoundTrip.SetResets(rev, c, fields[x.name].spec, fields[x.name].state, x.value);
    }
  }

  // ---------------------------------------------------------------------
  // A saved Dict field cannot be read back
  // ---------------------------------------------------------------------

  /** When the bulk `set` goes through, every one of its settings went through. */
  lemma {:induction false} SetAllPassEach(rev: Revision, c: Client, fields: map<string, Slot>, xs: seq<Setting>, j: nat)
    requires SetAll(rev, c, fields, xs).outcome.Pass? && j < |xs|
    ensures SetAll(rev, c, fields, xs[..j]).outcome.Pass?
    ensures SetOne(rev, c, SetAll(rev, c, fields, xs[..j]).fields, xs[j]).outcome.Pass?
    decreases |xs|
  {
    var init := xs[..|xs| - 1];
    if j < |xs| - 1 {
      SetAllPassEach(rev, c, fields, init, j);
      assert init[..j] == xs[..j] && init[j] == xs[j];
    } else {
      assert xs[..j] == init;
    }
  }

  /** In the current revision a registered `Dict` field makes `load` of the
      file that `save` wrote raise: the field always writes a list of pairs,
      and `set`, which `load` applies, accepts only a dict. */
  lemma DictBlocksReload(c: Client, fields: map<string, Slot>, names: seq<string>, n: string)
    requires SlotsFit(Current, fields) && forall k :: 0 <= k < |names| ==> names[k] in fields
    requires n in names && fields[n].spec.DictSpec? && WellFormed(Current, fields[n].spec)
    requires SaveAll(Current, fields, names).Ok?
    ensures SetAll(Current, c, FreshSlots(Current, fields), SaveAll(Current, fields, names).value).outcome.Fail?
  {
    var t := SaveAll(Current, fields, names).value;
    var j := DictLineWritten(fields, names, n);
    var blank := FreshSlots(Current, fields);
    if SetAll(Current, c, blank, t).outcome.Pass? {
      SetAllPassEach(Current, c, blank, t, j);
      SetAllFits(Current, c, blank, t[..j]);
      DictLineRejected(c, fields, SetAll(Current, c, blank, t[..j]).fields, n, t[j]);
    }
  }

  /** `save` writes a line for a `Dict` field, since its `to_save` is never `None`. */
  lemma DictLineWritten(fields: map<string, Slot>, names: seq<string>, n: string) returns (j: nat)
    requires SlotsFit(Current, fields) && forall k :: 0 <= k < |names| ==> names[k] in fields
    requires n in names && fields[n].spec.DictSpec? && WellFormed(Current, fields[n].spec)
    requires SaveAll(Current, fields, names).Ok?
    ensures j < |SaveAll(Current, fields, names).value|
    ensures SaveAll(Current, fields, names).value[j].name == n
    ensures Ok(SaveAll(Current, fields, names).value[j].value) == ToSaveF(Current, fields[n].spec, fields[n].state)
  {
    var t := SaveAll(Current, fields, names).value;
    SaveAllOk(Current, fields, names);
    var k :| 0 <= k < |names| && names[k] == n;
    SaveAllComplete(Current, fields, names);
    assert n in NamesOf(t);
    j :| 0 <= j < |t| && NamesOf(t)[j] == n;
    SaveAllLines(Current, fields, names);
  }

  /** The bulk `set` rejects the line a `Dict` field saved, whatever the field's state. */
  lemma DictLineRejected(c: Client, fields: map<string, Slot>, mid: map<string, Slot>, n: string, line: Setting)
    requires SlotsFit(Current, fields) && n in fields && fields[n].spec.DictSpec? && WellFormed(Current, fields[n].spec)
    requires SlotsFit(Current, mid) && n in mid && mid[n].spec == fields[n].spec
    requires line.name == n && Ok(line.value) == ToSaveF(Current, fields[n].spec, fields[n].state)
    ensures SetOne(Current, c, mid, line).outcome == Fail(ValueError)
  {
    var spec := fields[n].spec;
    DictLaws.SavedDictNotSettable(c, spec.key, spec.val, fields[n].state, mid[n].state);
  }

  // ---------------------------------------------------------------------
  // The documented session
  // ---------------------------------------------------------------------

  /** The functions behind the documented session: `set({"my_parameter": 3})`
      on a fresh `Int` field, the file `save` writes, and `config["my_parameter"]`. */
  lemma DocFacts(c: Client)
    ensures SetAll(Current, c, map["my_parameter" := Slot(IntSpec(None, None, None), Scalar(VNone))],
                   [Setting("my_parameter", VInt(3))])
            == SetRun(Pass, map["my_parameter" := Slot(IntSpec(None, None, None), Scalar(VInt(3)))])
    ensures SaveAll(Current, map["my_parameter" := Slot(IntSpec(None, None, None), Scalar(VInt(3)))], ["my_parameter"])
            == Ok([Setting("my_parameter", VInt(3))])
    ensures GetF(Current, c, IntSpec(None, None, None), Scalar(VInt(3))).result == Ok(VInt(3))
  {
    assert [Setting("my_parameter", VInt(3))][..0] == [];
    assert ["my_parameter"][..0] == [];
    var m := map["my_parameter" := Slot(IntSpec(None, None, None), Scalar(VInt(3)))];
    assert SaveAll(Current, m, []) == Ok([]);
    assert ToSaveF(Current, m["my_parameter"].spec, m["my_parameter"].state) == Ok(VInt(3));
    assert SaveAll(Current, m, ["my_parameter"]) == Ok([] + [Setting("my_parameter", VInt(3))]);
    assert [] + [Setting("my_parameter", VInt(3))] == [Setting("my_parameter", VInt(3))];
  }

  /** Register an `Int` option, set it to `3`, save, register the same option
      in a new configuration, load the saved file into it, and read the option. */
  method DocSession(c: Client) returns (file: seq<Setting>, r: Result<Value, Error>)
    ensures file == [Setting("my_parameter", VInt(3))]
    ensures r == Ok(VInt(3))
  {
    DocFacts(c);
    var config := new Config(Current);
    var reg := config.Register("my_parameter", IntSpec(None, None, None));
    assert config.fields == map["my_parameter" := Slot(IntSpec(None, None, None), Scalar(VNone))];
    var applied := config.Set(c, [Setting("my_parameter", VInt(3))]);
    var saved;
    file, saved := config.Save();
    var newConfig := new Config(Current);
    reg := newConfig.Register("my_parameter", IntSpec(None, None, None));
    assert newConfig.fields == map["my_parameter" := Slot(IntSpec(None, None, None), Scalar(VNone))];
    var loaded, written := newConfig.Load(c, Some(file));
    r := newConfig.GetItem(c, "my_parameter");
  }
}
