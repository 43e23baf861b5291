/**
 * What the `List` field promises: its check is all-or-nothing over the
 * items, `set` builds one fresh element field per item, `get` and `to_save`
 * ask the element fields in order, and `load` appends one element field per
 * item until one of them raises.
 */
module ListLaws {
  import opened Wrappers
  import opened Errors
  import opened PyValues
  import opened FieldTypes
  import opened FieldOps

  /** A fresh current `List` holds no elements and saves as `[]`; a fresh
      legacy one holds `None`, so `get` raises `ValueError` and `to_save`
      raises `TypeError`. */
  lemma FreshList(rev: Revision, c: Client, elem: FieldSpec, ml: Option<Value>)
    requires Construct(rev, ListSpec(elem, ml)).Ok?
    ensures if rev == Current then
        GetF(rev, c, ListSpec(elem, ml), Construct(rev, ListSpec(elem, ml)).value) == Got(Ok(VList([])), Construct(rev, ListSpec(elem, ml)).value) && ToSaveF(rev, ListSpec(elem, ml), Construct(rev, ListSpec(elem, ml)).value) == Ok(VList([]))
      else
        GetF(rev, c, ListSpec(elem, ml), Construct(rev, ListSpec(elem, ml)).value) == Got(Err(ValueError), Construct(rev, ListSpec(elem, ml)).value) && ToSaveF(rev, ListSpec(elem, ml), Construct(rev, ListSpec(elem, ml)).value) == Err(TypeError)
  {
  }

  // ---------------------------------------------------------------------
  // check_value
  // ---------------------------------------------------------------------

  /** The loop of the current check accepts exactly when every item passes
      the element check, and never lets a `TypeError` out. */
  lemma {:induction false} CheckItemsAll(rev: Revision, spec: FieldSpec, xs: seq<Value>)
    requires spec.ListSpec?
    ensures CheckItems(rev, spec, xs) == Ok(true) <==>
              forall k :: 0 <= k < |xs| ==> Check(rev, spec.elem, xs[k]) == Ok(true)
    ensures CheckItems(rev, spec, xs).Err? ==> CheckItems(rev, spec, xs).error != TypeError
  {
    if |xs| > 0 {
      CheckItemsAll(rev, spec, xs[1..]);
      assert forall k :: 1 <= k < |xs| ==> xs[1..][k - 1] == xs[k];
    }
  }

  /** The current `List.check_value`: the value must be iterable and every
      item must pass the element check; a value that is not iterable is
      rejected rather than raising. */
  lemma ListCheckCurrent(elem: FieldSpec, ml: Option<Value>, v: Value)
    ensures && (Check(Current, ListSpec(elem, ml), v) == Ok(true) <==>
            && Construct(Current, elem).Ok?
            && Iterate(v).Some?
            && forall k :: 0 <= k < |Iterate(v).value| ==> Check(Current, elem, Iterate(v).value[k]) == Ok(true))
      && (Construct(Current, elem).Ok? && Iterate(v).None? ==> Check(Current, ListSpec(elem, ml), v) == Ok(false))
      && (Construct(Current, elem).Ok? && Check(Current, ListSpec(elem, ml), v).Err? ==> Check(Current, ListSpec(elem, ml), v).error != TypeError)
  {
    if Construct(Current, elem).Ok? && Iterate(v).Some? {
      CheckItemsAll(Current, ListSpec(elem, ml), Iterate(v).value);
    }
  }

  /** The legacy `List.check_value` hands the whole value to the element
      check, so a list of `Int` or `Color` raises `TypeError` on every list,
      and one of `Bool` or `Str` accepts everything. */
  lemma ListCheckLegacy(elem: FieldSpec, ml: Option<Value>, xs: seq<Value>)
    requires elem.IntSpec? || elem.ColorSpec? || elem.BoolSpec? || elem.StrSpec?
    requires Construct(Legacy, elem).Ok?
    ensures Check(Legacy, ListSpec(elem, ml), VList(xs)) ==
              if elem.IntSpec? || elem.ColorSpec? then Err(TypeError) else Ok(true)
  {
  }

  /** The legacy `List.check_value` as evidently intended: each item, not
      the whole list, goes to the element check, as the current revision
      does. */
  function CheckLegacyPerItem(spec: FieldSpec, v: Value): Result<bool, Error>
    requires spec.ListSpec?
  {
    match Construct(Legacy, spec.elem)
    case Err(e) => Err(e)
    case Ok(_) =>
      match Iterate(v)
      case None => Ok(false)
      case Some(xs) => CheckItems(Legacy, spec, xs)
  }

  /** With that check a legacy list is accepted exactly when every item
      passes the element check, so a list of valid `Int` or `Color` values
      is accepted where the check as written raises `TypeError`. */
  lemma LegacyPerItemAccepts(elem: FieldSpec, ml: Option<Value>, xs: seq<Value>)
    requires Construct(Legacy, elem).Ok?
    ensures CheckLegacyPerItem(ListSpec(elem, ml), VList(xs)) == Ok(true) <==>
              forall k :: 0 <= k < |xs| ==> Check(Legacy, elem, xs[k]) == Ok(true)
  {
    CheckItemsAll(Legacy, ListSpec(elem, ml), xs);
  }

  // ---------------------------------------------------------------------
  // set
  // ---------------------------------------------------------------------

  /** Position `j` holds the first item whose fresh element field refuses it. */
  predicate SetFailsFirstAt(rev: Revision, c: Client, elem: FieldSpec, xs: seq<Value>, j: int) {
    && 0 <= j < |xs|
    && SetFresh(rev, c, elem, xs[j]).Err?
    && forall i :: 0 <= i < j ==> SetFresh(rev, c, elem, xs[i]).Ok?
  }

  /** The loop of `set` succeeds exactly when every item can be set on a
      fresh element field. */
  lemma {:induction false} SetItemsOk(rev: Revision, c: Client, spec: FieldSpec, xs: seq<Value>)
    requires spec.ListSpec?
    ensures SetItems(rev, c, spec, xs).Ok? <==> forall k :: 0 <= k < |xs| ==> SetFresh(rev, c, spec.elem, xs[k]).Ok?
  {
    if |xs| > 0 {
      var init := xs[..|xs| - 1];
      SetItemsOk(rev, c, spec, init);
      SetItemsSnoc(rev, c, spec, xs);
      assert forall k :: 0 <= k < |init| ==> init[k] == xs[k];
    }
  }

  /** One step of the loop of `set`: the last item is set after the others. */
  lemma SetItemsSnoc(rev: Revision, c: Client, spec: FieldSpec, xs: seq<Value>)
    requires spec.ListSpec? && xs != []
    ensures SetItems(rev, c, spec, xs).Ok? <==>
              SetItems(rev, c, spec, xs[..|xs| - 1]).Ok? && SetFresh(rev, c, spec.elem, xs[|xs| - 1]).Ok?
    ensures SetItems(rev, c, spec, xs).Ok? ==>
              SetItems(rev, c, spec, xs).value == SetItems(rev, c, spec, xs[..|xs| - 1]).value + [SetFresh(rev, c, spec.elem, xs[|xs| - 1]).value]
  {
  }

  /** A successful loop of `set` holds the fresh element fields in item order. */
  lemma {:induction false} SetItemsValues(rev: Revision, c: Client, spec: FieldSpec, xs: seq<Value>)
    requires spec.ListSpec? && SetItems(rev, c, spec, xs).Ok?
    ensures forall k :: 0 <= k < |xs| ==>
              SetFresh(rev, c, spec.elem, xs[k]).Ok? && SetItems(rev, c, spec, xs).value[k] == SetFresh(rev, c, spec.elem, xs[k]).value
  {
    if |xs| > 0 {
      var init := xs[..|xs| - 1];
      SetItemsSnoc(rev, c, spec, xs);
      SetItemsValues(rev, c, spec, init);
      assert forall k :: 0 <= k < |init| ==> init[k] == xs[k];
    }
  }

  /** A failing loop of `set` raises what the first refusing element raised. */
  lemma {:induction false} SetItemsError(rev: Revision, c: Client, spec: FieldSpec, xs: seq<Value>)
    requires spec.ListSpec? && SetItems(rev, c, spec, xs).Err?
    ensures exists j :: SetFailsFirstAt(rev, c, spec.elem, xs, j)
                        && SetFresh(rev, c, spec.elem, xs[j]).error == SetItems(rev, c, spec, xs).error
  {
    var init := xs[..|xs| - 1];
    assert forall k :: 0 <= k < |init| ==> init[k] == xs[k];
    var r := SetItems(rev, c, spec, init);
    if r.Err? {
      SetItemsError(rev, c, spec, init);
      var j :| SetFailsFirstAt(rev, c, spec.elem, init, j) && SetFresh(rev, c, spec.elem, init[j]).error == r.error;
      assert SetFailsFirstAt(rev, c, spec.elem, xs, j);
    } else {
      SetItemsOk(rev, c, spec, init);
      assert SetFailsFirstAt(rev, c, spec.elem, xs, |xs| - 1);
    }
  }

  /** `set` of a `List`: the current revision first requires the check; both
      then replace the values with one fresh element field per item, all or
      nothing. */
  lemma SetList(rev: Revision, c: Client, elem: FieldSpec, ml: Option<Value>, st: FieldState, v: Value)
    requires Fits(rev, ListSpec(elem, ml), st)
    ensures && (SetF(rev, c, ListSpec(elem, ml), st, v).Ok? <==>
            && (rev == Current ==> Check(rev, ListSpec(elem, ml), v) == Ok(true))
            && Iterate(v).Some?
            && forall k :: 0 <= k < |Iterate(v).value| ==> SetFresh(rev, c, elem, Iterate(v).value[k]).Ok?)
      && (SetF(rev, c, ListSpec(elem, ml), st, v).Ok? ==>
            && SetF(rev, c, ListSpec(elem, ml), st, v).value.Items?
            && |SetF(rev, c, ListSpec(elem, ml), st, v).value.elems| == |Iterate(v).value|
            && forall k :: 0 <= k < |SetF(rev, c, ListSpec(elem, ml), st, v).value.elems| ==> SetF(rev, c, ListSpec(elem, ml), st, v).value.elems[k] == SetFresh(rev, c, elem, Iterate(v).value[k]).value)
  {
    if Iterate(v).Some? {
      var xs := Iterate(v).value;
      SetListItems(rev, c, elem, ml, st, v);
      SetItemsOk(rev, c, ListSpec(elem, ml), xs);
      if SetItems(rev, c, ListSpec(elem, ml), xs).Ok? {
        SetItemsValues(rev, c, ListSpec(elem, ml), xs);
      }
    }
  }

  /** `set` of a `List` on an iterable value: the result is the loop over its items. */
  lemma SetListItems(rev: Revision, c: Client, elem: FieldSpec, ml: Option<Value>, st: FieldState, v: Value)
    requires Fits(rev, ListSpec(elem, ml), st) && Iterate(v).Some?
    ensures (SetF(rev, c, ListSpec(elem, ml), st, v).Ok? <==>
            && (rev == Current ==> Check(rev, ListSpec(elem, ml), v) == Ok(true))
            && SetItems(rev, c, ListSpec(elem, ml), Iterate(v).value).Ok?)
    ensures SetF(rev, c, ListSpec(elem, ml), st, v).Ok? ==>
              SetF(rev, c, ListSpec(elem, ml), st, v).value == Items(SetItems(rev, c, ListSpec(elem, ml), Iterate(v).value).value)
  {
  }

  /** `max_len` of the legacy constructor is stored and never read: it
      changes nothing that `set` or `load` do. */
  lemma {:induction false} SetItemsMaxLen(rev: Revision, c: Client, elem: FieldSpec, m1: Option<Value>, m2: Option<Value>, xs: seq<Value>)
    ensures SetItems(rev, c, ListSpec(elem, m1), xs) == SetItems(rev, c, ListSpec(elem, m2), xs)
  {
    if |xs| > 0 {
      SetItemsMaxLen(rev, c, elem, m1, m2, xs[..|xs| - 1]);
    }
  }

  lemma {:induction false} LoadItemsMaxLen(rev: Revision, c: Client, elem: FieldSpec, m1: Option<Value>, m2: Option<Value>,
                                             es: seq<FieldState>, xs: seq<Value>)
    requires forall k :: 0 <= k < |es| ==> Fits(rev, elem, es[k])
    ensures LoadItems(rev, c, ListSpec(elem, m1), es, xs) == LoadItems(rev, c, ListSpec(elem, m2), es, xs)
  {
    if |xs| > 0 {
      LoadItemsMaxLen(rev, c, elem, m1, m2, es, xs[..|xs| - 1]);
    }
  }

  lemma MaxLenIgnored(c: Client, elem: FieldSpec, m1: Option<Value>, m2: Option<Value>, st: FieldState, v: Value)
    requires Fits(Legacy, ListSpec(elem, m1), st)
    ensures SetF(Legacy, c, ListSpec(elem, m1), st, v) == SetF(Legacy, c, ListSpec(elem, m2), st, v)
    ensures LoadF(Legacy, c, ListSpec(elem, m1), st, v) == LoadF(Legacy, c, ListSpec(elem, m2), st, v)
    ensures Check(Legacy, ListSpec(elem, m1), v) == Check(Legacy, ListSpec(elem, m2), v)
  {
    SetMaxLen(c, elem, m1, m2, st, v);
    LoadMaxLen(c, elem, m1, m2, st, v);
  }

  lemma SetMaxLen(c: Client, elem: FieldSpec, m1: Option<Value>, m2: Option<Value>, st: FieldState, v: Value)
    requires Fits(Legacy, ListSpec(elem, m1), st)
    ensures SetF(Legacy, c, ListSpec(elem, m1), st, v) == SetF(Legacy, c, ListSpec(elem, m2), st, v)
  {
    if Iterate(v).Some? {
      SetItemsMaxLen(Legacy, c, elem, m1, m2, Iterate(v).value);
    }
  }

  lemma LoadMaxLen(c: Client, elem: FieldSpec, m1: Option<Value>, m2: Option<Value>, st: FieldState, v: Value)
    requires Fits(Legacy, ListSpec(elem, m1), st)
    ensures LoadF(Legacy, c, ListSpec(elem, m1), st, v) == LoadF(Legacy, c, ListSpec(elem, m2), st, v)
  {
    if Iterate(v).Some? && st.Items? {
      LoadItemsMaxLen(Legacy, c, elem, m1, m2, st.elems, Iterate(v).value);
    }
  }

  // ---------------------------------------------------------------------
  // get and to_save
  // ---------------------------------------------------------------------

  /** `get` of a list raises exactly when the `get` of one of its elements does. */
  lemma {:induction false} GetItemsOk(rev: Revision, c: Client, spec: FieldSpec, es: seq<FieldState>)
    requires spec.ListSpec? && forall k :: 0 <= k < |es| ==> Fits(rev, spec.elem, es[k])
    ensures GetItems(rev, c, spec, es).result.Ok? <==> forall k :: 0 <= k < |es| ==> GetF(rev, c, spec.elem, es[k]).result.Ok?
  {
    if |es| > 0 {
      var init := es[..|es| - 1];
      GetItemsOk(rev, c, spec, init);
      assert forall k :: 0 <= k < |init| ==> init[k] == es[k];
    }
  }

  /** `get` asks every element field, each on its own state: the list holds
      exactly their answers in order, and each element keeps the state its
      own `get` left. */
  lemma {:induction false} GetItemsValues(rev: Revision, c: Client, spec: FieldSpec, es: seq<FieldState>)
    requires spec.ListSpec? && forall k :: 0 <= k < |es| ==> Fits(rev, spec.elem, es[k])
    requires GetItems(rev, c, spec, es).result.Ok?
    ensures forall k :: 0 <= k < |es| ==>
              && GetF(rev, c, spec.elem, es[k]).result.Ok?
              && GetItems(rev, c, spec, es).result.value[k] == GetF(rev, c, spec.elem, es[k]).result.value
              && GetItems(rev, c, spec, es).states[k] == GetF(rev, c, spec.elem, es[k]).state
  {
    if |es| > 0 {
      var init := es[..|es| - 1];
      GetItemsValues(rev, c, spec, init);
      assert forall k :: 0 <= k < |init| ==> init[k] == es[k];
    }
  }

  /** `to_save` saves every element field in order, and fails exactly when one of them does. */
  lemma {:induction false} SaveItemsPointwise(rev: Revision, spec: FieldSpec, es: seq<FieldState>)
    requires spec.ListSpec? && forall k :: 0 <= k < |es| ==> Fits(rev, spec.elem, es[k])
    ensures && (SaveItems(rev, spec, es).Ok? <==> forall k :: 0 <= k < |es| ==> ToSaveF(rev, spec.elem, es[k]).Ok?)
      && (SaveItems(rev, spec, es).Ok? ==> forall k :: 0 <= k < |es| ==> SaveItems(rev, spec, es).value[k] == ToSaveF(rev, spec.elem, es[k]).value)
  {
    if |es| > 0 {
      var init := es[..|es| - 1];
      SaveItemsPointwise(rev, spec, init);
      assert forall k :: 0 <= k < |init| ==> init[k] == es[k];
    }
  }

  // ---------------------------------------------------------------------
  // load
  // ---------------------------------------------------------------------

  /** Position `j` holds the first item a fresh element field does not load. */
  predicate LoadFailsFirstAt(rev: Revision, c: Client, elem: FieldSpec, xs: seq<Value>, j: int) {
    && 0 <= j < |xs|
    && LoadFresh(rev, c, elem, xs[j]).outcome.Fail?
    && forall i :: 0 <= i < j ==> LoadFresh(rev, c, elem, xs[i]).outcome.Pass?
  }

  /** The loop of `load` passes exactly when every item loads on a fresh element field. */
  lemma {:induction false} LoadItemsPass(rev: Revision, c: Client, spec: FieldSpec, es: seq<FieldState>, xs: seq<Value>)
    requires spec.ListSpec? && forall k :: 0 <= k < |es| ==> Fits(rev, spec.elem, es[k])
    ensures LoadItems(rev, c, spec, es, xs).outcome.Pass? <==>
              forall k :: 0 <= k < |xs| ==> LoadFresh(rev, c, spec.elem, xs[k]).outcome.Pass?
  {
    if |xs| > 0 {
      var init := xs[..|xs| - 1];
      LoadItemsPass(rev, c, spec, es, init);
      LoadItemsSnocPass(rev, c, spec, es, xs);
      assert forall k :: 0 <= k < |init| ==> init[k] == xs[k];
    }
  }

  /** One step of the loop of `load`: it passes when the items before the
      last pass and the last one does. */
  lemma LoadItemsSnocPass(rev: Revision, c: Client, spec: FieldSpec, es: seq<FieldState>, xs: seq<Value>)
    requires spec.ListSpec? && forall k :: 0 <= k < |es| ==> Fits(rev, spec.elem, es[k])
    requires xs != []
    ensures LoadItems(rev, c, spec, es, xs).outcome.Pass? <==>
              LoadItems(rev, c, spec, es, xs[..|xs| - 1]).outcome.Pass? && LoadFresh(rev, c, spec.elem, xs[|xs| - 1]).outcome.Pass?
    ensures LoadItems(rev, c, spec, es, xs[..|xs| - 1]).outcome.Fail? ==>
              LoadItems(rev, c, spec, es, xs) == LoadItems(rev, c, spec, es, xs[..|xs| - 1])
    ensures LoadItems(rev, c, spec, es, xs[..|xs| - 1]).outcome.Pass? && LoadFresh(rev, c, spec.elem, xs[|xs| - 1]).outcome.Fail? ==>
              LoadItems(rev, c, spec, es, xs) ==
              LoadedItems(LoadFresh(rev, c, spec.elem, xs[|xs| - 1]).outcome, LoadItems(rev, c, spec, es, xs[..|xs| - 1]).states)
  {
  }

  /** Every appended element is the freshly loaded field of its item. */
  lemma {:induction false} LoadItemsStates(rev: Revision, c: Client, spec: FieldSpec, es: seq<FieldState>, xs: seq<Value>)
    requires spec.ListSpec? && forall k :: 0 <= k < |es| ==> Fits(rev, spec.elem, es[k])
    ensures forall k :: |es| <= k < |LoadItems(rev, c, spec, es, xs).states| ==> LoadItems(rev, c, spec, es, xs).states[k] == LoadFresh(rev, c, spec.elem, xs[k - |es|]).state
  {
    if |xs| > 0 {
      var init := xs[..|xs| - 1];
      LoadItemsStates(rev, c, spec, es, init);
      assert forall k :: |es| <= k < |LoadItems(rev, c, spec, es, init).states| ==> LoadItems(rev, c, spec, es, init).states[k] == LoadFresh(rev, c, spec.elem, init[k - |es|]).state;
      assert forall k :: 0 <= k < |init| ==> init[k] == xs[k];
      var l0 := LoadItems(rev, c, spec, es, init);
      var l := LoadItems(rev, c, spec, es, xs);
      if l0.outcome.Pass? {
        var f := LoadFresh(rev, c, spec.elem, xs[|xs| - 1]);
        if f.outcome.Pass? {
          assert l.states == l0.states + [f.state];
          forall k | |es| <= k < |l.states|
            ensures l.states[k] == LoadFresh(rev, c, spec.elem, xs[k - |es|]).state
          {
            if k < |l0.states| {
              assert l.states[k] == l0.states[k];
              assert init[k - |es|] == xs[k - |es|];
              assert l0.states[k] == LoadFresh(rev, c, spec.elem, init[k - |es|]).state;
            } else {
              assert |l0.states| == |es| + |init|;
              assert k - |es| == |xs| - 1;
              assert l.states[k] == f.state;
            }
          }
        }
      }
    }
  }

  /** A failing loop stops at an item that does not load, with that item's exception. */
  lemma {:induction false} LoadItemsFailAt(rev: Revision, c: Client, spec: FieldSpec, es: seq<FieldState>, xs: seq<Value>)
    requires spec.ListSpec? && forall k :: 0 <= k < |es| ==> Fits(rev, spec.elem, es[k])
    requires LoadItems(rev, c, spec, es, xs).outcome.Fail?
    ensures |LoadItems(rev, c, spec, es, xs).states| < |es| + |xs|
    ensures LoadItems(rev, c, spec, es, xs).outcome ==
              LoadFresh(rev, c, spec.elem, xs[|LoadItems(rev, c, spec, es, xs).states| - |es|]).outcome
  {
    var init := xs[..|xs| - 1];
    var l0 := LoadItems(rev, c, spec, es, init);
    LoadItemsSnocPass(rev, c, spec, es, xs);
    if l0.outcome.Fail? {
      LoadItemsFailAt(rev, c, spec, es, init);
      assert init[|l0.states| - |es|] == xs[|l0.states| - |es|];
    }
  }

  /** A failing loop stops at the first item that does not load. */
  lemma {:induction false} LoadItemsFail(rev: Revision, c: Client, spec: FieldSpec, es: seq<FieldState>, xs: seq<Value>)
    requires spec.ListSpec? && forall k :: 0 <= k < |es| ==> Fits(rev, spec.elem, es[k])
    requires LoadItems(rev, c, spec, es, xs).outcome.Fail?
    ensures LoadFailsFirstAt(rev, c, spec.elem, xs, |LoadItems(rev, c, spec, es, xs).states| - |es|)
  {
    var init := xs[..|xs| - 1];
    assert forall k :: 0 <= k < |init| ==> init[k] == xs[k];
    var l0 := LoadItems(rev, c, spec, es, init);
    LoadItemsFailAt(rev, c, spec, es, xs);
    if l0.outcome.Fail? {
      LoadItemsFail(rev, c, spec, es, init);
    } else {
      LoadItemsPass(rev, c, spec, es, init);
    }
  }

  /** The loop of `load` keeps the old elements and appends, in item order,
      one freshly loaded element per item; the first item that fails stops
      the loop with that item's exception, and the elements appended before
      it stay. */
  lemma LoadItemsAppends(rev: Revision, c: Client, spec: FieldSpec, es: seq<FieldState>, xs: seq<Value>)
    requires spec.ListSpec? && forall k :: 0 <= k < |es| ==> Fits(rev, spec.elem, es[k])
    ensures && (LoadItems(rev, c, spec, es, xs).outcome.Pass? <==> forall k :: 0 <= k < |xs| ==> LoadFresh(rev, c, spec.elem, xs[k]).outcome.Pass?)
      && LoadItems(rev, c, spec, es, xs).states[..|es|] == es
      && (forall k :: |es| <= k < |LoadItems(rev, c, spec, es, xs).states| ==> LoadItems(rev, c, spec, es, xs).states[k] == LoadFresh(rev, c, spec.elem, xs[k - |es|]).state)
      && (LoadItems(rev, c, spec, es, xs).outcome.Fail? ==>
            && LoadFailsFirstAt(rev, c, spec.elem, xs, |LoadItems(rev, c, spec, es, xs).states| - |es|)
            && LoadItems(rev, c, spec, es, xs).outcome == LoadFresh(rev, c, spec.elem, xs[|LoadItems(rev, c, spec, es, xs).states| - |es|]).outcome)
  {
    LoadItemsPass(rev, c, spec, es, xs);
    LoadItemsStates(rev, c, spec, es, xs);
    if LoadItems(rev, c, spec, es, xs).outcome.Fail? {
      LoadItemsFailAt(rev, c, spec, es, xs);
      LoadItemsFail(rev, c, spec, es, xs);
    }
  }

  /** A legacy `List` that was never set (`values is None`) loads only an
      empty sequence; any other sequence raises, `AttributeError` unless the
      first item already fails, and the field stays unset. */
  lemma LoadUnsetLegacy(c: Client, elem: FieldSpec, ml: Option<Value>, v: Value)
    requires Iterate(v).Some?
    ensures && LoadF(Legacy, c, ListSpec(elem, ml), Unset, v).state == Unset
      && (LoadF(Legacy, c, ListSpec(elem, ml), Unset, v).outcome.Pass? <==> |Iterate(v).value| == 0)
      && (LoadF(Legacy, c, ListSpec(elem, ml), Unset, v).outcome.Fail? && LoadFresh(Legacy, c, elem, Iterate(v).value[0]).outcome.Pass? ==>
            LoadF(Legacy, c, ListSpec(elem, ml), Unset, v).outcome == Fail(AttributeError))
  {
  }

  /** The current `load` of a list: the check first, then the items are appended. */
  lemma LoadListCurrent(c: Client, elem: FieldSpec, es: seq<FieldState>, v: Value)
    requires Fits(Current, ListSpec(elem, None), Items(es))
    ensures && (Check(Current, ListSpec(elem, None), v) != Ok(true) ==> LoadF(Current, c, ListSpec(elem, None), Items(es), v).outcome.Fail? && LoadF(Current, c, ListSpec(elem, None), Items(es), v).state == Items(es))
      && (Check(Current, ListSpec(elem, None), v) == Ok(true) ==>
            && LoadF(Current, c, ListSpec(elem, None), Items(es), v).state.Items?
            && |es| <= |LoadF(Current, c, ListSpec(elem, None), Items(es), v).state.elems| <= |es| + |Iterate(v).value|
            && LoadF(Current, c, ListSpec(elem, None), Items(es), v).state.elems[..|es|] == es
            && (LoadF(Current, c, ListSpec(elem, None), Items(es), v).outcome.Pass? <==> forall k :: 0 <= k < |Iterate(v).value| ==>
                                        LoadFresh(Current, c, elem, Iterate(v).value[k]).outcome.Pass?))
  {
    if Check(Current, ListSpec(elem, None), v) == Ok(true) {
      ListCheckCurrent(elem, None, v);
      LoadItemsAppends(Current, c, ListSpec(elem, None), es, Iterate(v).value);
    }
  }
}
