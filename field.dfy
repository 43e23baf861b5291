/**
 * A field object: what `type_()` returns for one field kind. Its methods
 * update the object's attributes in place, and each is proved to compute
 * what the corresponding function of FieldOps describes.
 */
module Fields {
  import opened Wrappers
  import opened Errors
  import opened PyValues
  import opened FieldTypes
  import opened FieldOps

  class Field {
    /** The revision of the package the field class comes from. */
    const rev: Revision
    /** The field class, with the arguments its factory passes to the constructor. */
    const spec: FieldSpec
    /** `self.value`, `self.values` and the cached instance, whichever the kind has. */
    var state: FieldState

    ghost predicate Valid()
      reads this
    {
      Fits(rev, spec, state)
    }

    constructor Init(rev: Revision, spec: FieldSpec, st: FieldState)
      requires Fits(rev, spec, st)
      ensures this.rev == rev && this.spec == spec && state == st && Valid()
    {
      this.rev := rev;
      this.spec := spec;
      state := st;
    }

    /** `type_()`: the constructor raises what `Construct` raises (an `Int`
        given both allowed values and bounds, a current `List` given `max_len`). */
    static method Make(rev: Revision, spec: FieldSpec) returns (r: Result<Field, Error>)
      ensures r.Ok? <==> Construct(rev, spec).Ok?
      ensures r.Err? ==> r.error == Construct(rev, spec).error
      ensures r.Ok? ==> fresh(r.value) && r.value.rev == rev && r.value.spec == spec
                        && r.value.state == Construct(rev, spec).value && r.value.Valid()
    {
      if Construct(rev, spec).Err? {
        r := Err(Construct(rev, spec).error);
      } else {
        var f := new Field.Init(rev, spec, Construct(rev, spec).value);
        r := Ok(f);
      }
    }

    /** `check_value(v)`; a current `List` and a `Dict` check item by item
        and stop at the first item that decides the answer. */
    method CheckValue(v: Value) returns (r: Result<bool, Error>)
      ensures r == Check(rev, spec, v)
    {
      if spec.ListSpec? && rev == Current {
        match Construct(rev, spec.elem) {
          case Err(e) => return Err(e);
          case Ok(_) =>
        }
        match Iterate(v) {
          case None => return Ok(false);
          case Some(xs) =>
            for i := 0 to |xs|
              invariant CheckItems(rev, spec, xs[i..]) == CheckItems(rev, spec, xs)
            {
              assert xs[i..][1..] == xs[i + 1..];
              var ok := Check(rev, spec.elem, xs[i]);
              if ok == Err(TypeError) || ok == Ok(false) {
                return Ok(false);
              } else if ok.Err? {
                return Err(ok.error);
              }
            }
            return Ok(true);
        }
      } else if spec.DictSpec? && v.VDict? {
        if Construct(rev, spec.key).Err? {
          return Err(Construct(rev, spec.key).error);
        } else if Construct(rev, spec.val).Err? {
          return Err(Construct(rev, spec.val).error);
        }
        var es := v.entries;
        for i := 0 to |es|
          invariant CheckEntries(rev, spec, es[i..]) == CheckEntries(rev, spec, es)
        {
          assert es[i..][1..] == es[i + 1..];
          var ok := CheckPair(rev, spec, es[i].key, es[i].val);
          if ok.Err? {
            return ok;
          } else if !ok.value {
            return Ok(false);
          }
        }
        return Ok(true);
      } else {
        return Check(rev, spec, v);
      }
    }

    /** `set(v)`: on success the new state; on an exception the field is unchanged. */
    method Set(c: Client, v: Value) returns (r: Outcome<Error>)
      requires Valid()
      modifies this
      ensures Valid()
      ensures SetF(rev, c, spec, old(state), v).Ok? ==> r == Pass && state == SetF(rev, c, spec, old(state), v).value
      ensures SetF(rev, c, spec, old(state), v).Err? ==> r == Fail(SetF(rev, c, spec, old(state), v).error) && state == old(state)
    {
      if spec.ListSpec? {
        if rev == Current {
          var ok := CheckValue(v);
          if ok.Err? {
            return Fail(ok.error);
          } else if !ok.value {
            return Fail(ValueError);
          }
        }
        match Iterate(v) {
          case None => return Fail(TypeError);
          case Some(xs) =>
            var built := BuildItems(c, xs);
            if built.Err? {
              return Fail(built.error);
            }
            state := Items(built.value);
            return Pass;
        }
      } else if spec.DictSpec? {
        var ok := CheckValue(v);
        if ok.Err? {
          return Fail(ok.error);
        } else if !ok.value {
          return Fail(ValueError);
        } else if !v.VDict? {
          return Fail(AttributeError);
        }
        var built := BuildEntries(c, v.entries);
        if built.Err? {
          return Fail(built.error);
        }
        state := Pairs(built.value);
        return Pass;
      } else {
        match SetF(rev, c, spec, state, v) {
          case Err(e) => return Fail(e);
          case Ok(s) => state := s; return Pass;
        }
      }
    }

    /** The loop of `List.set`: a fresh element field per item, set in order into `new_liste`. */
    method BuildItems(c: Client, xs: seq<Value>) returns (r: Result<seq<FieldState>, Error>)
      requires spec.ListSpec?
      ensures r == SetItems(rev, c, spec, xs)
    {
      var acc: seq<FieldState> := [];
      for i := 0 to |xs|
        invariant SetItems(rev, c, spec, xs[..i]) == Ok(acc)
      {
        assert xs[..i + 1][..i] == xs[..i];
        var s := SetFresh(rev, c, spec.elem, xs[i]);
        if s.Err? {
          SetItemsFailsFrom(rev, c, spec, xs, i + 1);
          return Err(s.error);
        }
        acc := acc + [s.value];
      }
      assert xs[..|xs|] == xs;
      return Ok(acc);
    }

    /** The loop of `Dict.set` over `value.items()`: a fresh key field, then a fresh value field. */
    method BuildEntries(c: Client, ps: seq<Pair>) returns (r: Result<seq<Entry>, Error>)
      requires spec.DictSpec?
      ensures r == SetEntries(rev, c, spec, ps)
    {
      var acc: seq<Entry> := [];
      for i := 0 to |ps|
        invariant SetEntries(rev, c, spec, ps[..i]) == Ok(acc)
      {
        assert ps[..i + 1][..i] == ps[..i];
        var k := SetFresh(rev, c, spec.key, ps[i].key);
        if k.Err? {
          SetEntriesFailsFrom(rev, c, spec, ps, i + 1);
          return Err(k.error);
        }
        var w := SetFresh(rev, c, spec.val, ps[i].val);
        if w.Err? {
          SetEntriesFailsFrom(rev, c, spec, ps, i + 1);
          return Err(w.error);
        }
        acc := acc + [Entry(k.value, w.value)];
      }
      assert ps[..|ps|] == ps;
      return Ok(acc);
    }

    /** `get()`: its result, and the cache a `Guild` or `User` updates on the way. */
    method Get(c: Client) returns (r: Result<Value, Error>)
      requires Valid()
      modifies this
      ensures Valid()
      ensures r == GetF(rev, c, spec, old(state)).result && state == GetF(rev, c, spec, old(state)).state
    {
      var g := GetF(rev, c, spec, state);
      state := g.state;
      r := g.result;
    }

    /** `to_save()`. */
    function ToSave(): Result<Value, Error>
      reads this
      requires Valid()
    {
      ToSaveF(rev, spec, state)
    }

    /** `load(v)`: a `List` appends each loaded element to `self.values` as it
        goes, so an exception keeps the elements appended before it. */
    method Load(c: Client, v: Value) returns (r: Outcome<Error>)
      requires Valid()
      modifies this
      ensures Valid()
      ensures r == LoadF(rev, c, spec, old(state), v).outcome && state == LoadF(rev, c, spec, old(state), v).state
    {
      if spec.ListSpec? {
        if rev == Current {
          var ok := CheckValue(v);
          if ok.Err? {
            return Fail(ok.error);
          } else if !ok.value {
            return Fail(ValueError);
          }
        }
        match Iterate(v) {
          case None => return Fail(TypeError);
          case Some(xs) =>
            if state.Items? {
              r := AppendLoaded(c, xs);
            } else if rev == Current {
              return Fail(AttributeError);
            } else if |xs| == 0 {
              return Pass;
            } else {
              var first := LoadFresh(rev, c, spec.elem, xs[0]);
              return if first.outcome.Fail? then first.outcome else Fail(AttributeError);
            }
        }
      } else if spec.DictSpec? {
        match Iterate(v) {
          case None => return Fail(TypeError);
          case Some(xs) =>
            var built := LoadPairs(c, xs);
            if built.Err? {
              return Fail(built.error);
            }
            state := Pairs(built.value);
            return Pass;
        }
      } else {
        var l := LoadF(rev, c, spec, state, v);
        state := l.state;
        r := l.outcome;
      }
    }

    /** The loop of `List.load`: `self.values.append(new_object)` after each element loads. */
    method AppendLoaded(c: Client, xs: seq<Value>) returns (r: Outcome<Error>)
      requires Valid() && spec.ListSpec? && state.Items?
      modifies this
      ensures Valid() && state.Items?
      ensures r == LoadItems(rev, c, spec, old(state).elems, xs).outcome
      ensures state.elems == LoadItems(rev, c, spec, old(state).elems, xs).states
    {
      ghost var es := state.elems;
      for i := 0 to |xs|
        invariant Valid() && state.Items?
        invariant LoadItems(rev, c, spec, es, xs[..i]) == LoadedItems(Pass, state.elems)
      {
        assert xs[..i + 1][..i] == xs[..i];
        var l := LoadFresh(rev, c, spec.elem, xs[i]);
        if l.outcome.Fail? {
          LoadItemsFailsFrom(rev, c, spec, es, xs, i + 1);
          return l.outcome;
        }
        state := Items(state.elems + [l.state]);
      }
      assert xs[..|xs|] == xs;
      return Pass;
    }

    /** The loop of `Dict.load` over saved pairs, building `new_values`. */
    method LoadPairs(c: Client, xs: seq<Value>) returns (r: Result<seq<Entry>, Error>)
      requires spec.DictSpec?
      ensures r == LoadEntries(rev, c, spec, xs)
    {
      var acc: seq<Entry> := [];
      for i := 0 to |xs|
        invariant LoadEntries(rev, c, spec, xs[..i]) == Ok(acc)
      {
        assert xs[..i + 1][..i] == xs[..i];
        var en := LoadPair(rev, c, spec, xs[i]);
        if en.Err? {
          LoadEntriesFailsFrom(rev, c, spec, xs, i + 1);
          return Err(en.error);
        }
        acc := acc + [en.value];
      }
      assert xs[..|xs|] == xs;
      return Ok(acc);
    }
  }

  // ---------------------------------------------------------------------
  // An exception ends each loop: once a prefix of the input fails, the
  // whole input fails the same way.
  // ---------------------------------------------------------------------

  lemma {:induction false} SetItemsFailsFrom(rev: Revision, c: Client, spec: FieldSpec, xs: seq<Value>, i: nat)
    requires spec.ListSpec? && i <= |xs| && SetItems(rev, c, spec, xs[..i]).Err?
    ensures SetItems(rev, c, spec, xs) == SetItems(rev, c, spec, xs[..i])
    decreases |xs|
  {
    if i == |xs| {
      assert xs[..i] == xs;
    } else {
      var init := xs[..|xs| - 1];
      assert init[..i] == xs[..i];
      SetItemsFailsFrom(rev, c, spec, init, i);
    }
  }

  lemma {:induction false} SetEntriesFailsFrom(rev: Revision, c: Client, spec: FieldSpec, ps: seq<Pair>, i: nat)
    requires spec.DictSpec? && i <= |ps| && SetEntries(rev, c, spec, ps[..i]).Err?
    ensures SetEntries(rev, c, spec, ps) == SetEntries(rev, c, spec, ps[..i])
    decreases |ps|
  {
    if i == |ps| {
      assert ps[..i] == ps;
    } else {
      var init := ps[..|ps| - 1];
      assert init[..i] == ps[..i];
      SetEntriesFailsFrom(rev, c, spec, init, i);
    }
  }

  lemma {:induction false} LoadItemsFailsFrom(rev: Revision, c: Client, spec: FieldSpec, es: seq<FieldState>, xs: seq<Value>, i: nat)
    requires spec.ListSpec? && forall k :: 0 <= k < |es| ==> Fits(rev, spec.elem, es[k])
    requires i <= |xs| && LoadItems(rev, c, spec, es, xs[..i]).outcome.Fail?
    ensures LoadItems(rev, c, spec, es, xs) == LoadItems(rev, c, spec, es, xs[..i])
    decreases |xs|
  {
    if i == |xs| {
      assert xs[..i] == xs;
    } else {
      var init := xs[..|xs| - 1];
      assert init[..i] == xs[..i];
      LoadItemsFailsFrom(rev, c, spec, es, init, i);
    }
  }

  lemma {:induction false} LoadEntriesFailsFrom(rev: Revision, c: Client, spec: FieldSpec, xs: seq<Value>, i: nat)
    requires spec.DictSpec? && i <= |xs| && LoadEntries(rev, c, spec, xs[..i]).Err?
    ensures LoadEntries(rev, c, spec, xs) == LoadEntries(rev, c, spec, xs[..i])
    decreases |xs|
  {
    if i == |xs| {
      assert xs[..i] == xs;
    } else {
      var init := xs[..|xs| - 1];
      assert init[..i] == xs[..i];
      LoadEntriesFailsFrom(rev, c, spec, init, i);
    }
  }
}
