/**
 * Round trips of a field through its saved form: `load(to_save())`, which a
 * field offers for its own persistence, and `set(to_save())`, which is what
 * the configuration container applies when it reads its file back.
 */
module RoundTrip {
  import opened Wrappers
  import opened Errors
  import opened PyValues
  import opened FieldTypes
  import opened FieldOps
  import ScalarLaws
  import ListLaws
  import DictLaws

  // ---------------------------------------------------------------------
  // load(to_save())
  // ---------------------------------------------------------------------

  /** The kinds whose `load` reads back what `to_save` wrote: the plain
      kinds, a current `List` of such kinds other than `Dict` (the list check
      runs the element check on each saved item, and a saved `Dict` is a list
      of pairs, which the `Dict` check rejects), and a `Dict` of such kinds.
      The chat-platform kinds are excluded because their `load` always
      raises, and a legacy `List` because an unset one loads nothing. */
  predicate Reloadable(rev: Revision, spec: FieldSpec) {
    match spec
    case IntSpec(_, _, _) => true
    case BoolSpec => true
    case ColorSpec => true
    case StrSpec => true
    case ListSpec(elem, _) => rev == Current && !elem.DictSpec? && Reloadable(rev, elem)
    case DictSpec(kt, vt) => Reloadable(rev, kt) && Reloadable(rev, vt)
    case _ => false
  }

  /** A state its own kind accepts: a plain value that passes the check, and
      elements and entries that are stable themselves. */
  predicate Stable(rev: Revision, spec: FieldSpec, st: FieldState) {
    match spec
    case ListSpec(elem, _) => st.Items? && forall k :: 0 <= k < |st.elems| ==> Stable(rev, elem, st.elems[k])
    case DictSpec(kt, vt) =>
      st.Pairs? && forall k :: 0 <= k < |st.entries| ==>
        Stable(rev, kt, st.entries[k].key) && Stable(rev, vt, st.entries[k].val)
    case GuildSpec => false
    case UserSpec => false
    case ChannelSpec => false
    case RoleSpec => false
    case _ => st.Scalar? && Check(rev, spec, st.value) == Ok(true)
  }

  /** `set` only ever produces stable states. */
  lemma SetIsStable(rev: Revision, c: Client, spec: FieldSpec, st: FieldState, v: Value)
    requires Reloadable(rev, spec) && WellFormed(rev, spec) && Fits(rev, spec, st)
    requires SetF(rev, c, spec, st, v).Ok?
    ensures Stable(rev, spec, SetF(rev, c, spec, st, v).value)
    decreases spec, 0
  {
    match spec
    case ListSpec(elem, ml) =>
      var xs := Iterate(v).value;
      var es := SetItems(rev, c, spec, xs).value;
      assert SetF(rev, c, spec, st, v) == Ok(Items(es));
      ListLaws.SetItemsValues(rev, c, spec, xs);
      forall k | 0 <= k < |es|
        ensures Stable(rev, elem, es[k])
      {
        SetFreshIsStable(rev, c, elem, xs[k]);
      }
    case DictSpec(kt, vt) =>
      var es := SetEntries(rev, c, spec, v.entries).value;
      assert SetF(rev, c, spec, st, v) == Ok(Pairs(es));
      DictLaws.SetEntriesValues(rev, c, spec, v.entries);
      forall k | 0 <= k < |es|
        ensures Stable(rev, kt, es[k].key) && Stable(rev, vt, es[k].val)
      {
        SetFreshIsStable(rev, c, kt, v.entries[k].key);
        SetFreshIsStable(rev, c, vt, v.entries[k].val);
      }
    case IntSpec(_, _, _) =>
      ScalarLaws.SetThenGet(rev, c, spec, st, v);
      ScalarLaws.CoercedPasses(rev, spec, v);
    case BoolSpec =>
    case ColorSpec =>
      ScalarLaws.SetThenGet(rev, c, spec, st, v);
      ScalarLaws.CoercedPasses(rev, spec, v);
    case StrSpec =>
  }

  lemma SetFreshIsStable(rev: Revision, c: Client, spec: FieldSpec, x: Value)
    requires Reloadable(rev, spec) && WellFormed(rev, spec)
    requires SetFresh(rev, c, spec, x).Ok?
    ensures Stable(rev, spec, SetFresh(rev, c, spec, x).value)
    decreases spec, 1
  {
    SetIsStable(rev, c, spec, Construct(rev, spec).value, x);
  }

  /** What a stable state of a kind other than `Dict` saves passes that
      kind's own check. */
  lemma SavedPasses(rev: Revision, spec: FieldSpec, st: FieldState)
    requires Reloadable(rev, spec) && WellFormed(rev, spec) && !spec.DictSpec?
    requires Fits(rev, spec, st) && Stable(rev, spec, st)
    ensures ToSaveF(rev, spec, st).Ok?
    ensures Check(rev, spec, ToSaveF(rev, spec, st).value) == Ok(true)
    decreases spec
  {
    match spec
    case ListSpec(elem, _) =>
      var es := st.elems;
      forall k | 0 <= k < |es|
        ensures ToSaveF(rev, elem, es[k]).Ok? && Check(rev, elem, ToSaveF(rev, elem, es[k]).value) == Ok(true)
      {
        SavedPasses(rev, elem, es[k]);
      }
      ListLaws.SaveItemsPointwise(rev, spec, es);
      var vs := SaveItems(rev, spec, es).value;
      ListLaws.CheckItemsAll(rev, spec, vs);
    case _ =>
  }

  /** `load` on a fresh field of what `to_save` wrote restores a stable state exactly. */
  lemma ReloadState(rev: Revision, c: Client, spec: FieldSpec, st: FieldState)
    requires Reloadable(rev, spec) && WellFormed(rev, spec)
    requires Fits(rev, spec, st) && Stable(rev, spec, st)
    ensures ToSaveF(rev, spec, st).Ok?
    ensures LoadFresh(rev, c, spec, ToSaveF(rev, spec, st).value) == Loaded(Pass, st)
    decreases spec, 1
  {
    match spec
    case ListSpec(_, _) => ReloadList(rev, c, spec, st);
    case DictSpec(_, _) => ReloadDict(rev, c, spec, st);
    case _ =>
  }

  lemma ReloadList(rev: Revision, c: Client, spec: FieldSpec, st: FieldState)
    requires spec.ListSpec? && Reloadable(rev, spec) && WellFormed(rev, spec)
    requires Fits(rev, spec, st) && Stable(rev, spec, st)
    ensures ToSaveF(rev, spec, st).Ok?
    ensures LoadFresh(rev, c, spec, ToSaveF(rev, spec, st).value) == Loaded(Pass, st)
    decreases spec, 0
  {
    var es := st.elems;
    forall k | 0 <= k < |es|
      ensures ToSaveF(rev, spec.elem, es[k]).Ok?
      ensures LoadFresh(rev, c, spec.elem, ToSaveF(rev, spec.elem, es[k]).value) == Loaded(Pass, es[k])
    {
      ReloadState(rev, c, spec.elem, es[k]);
    }
    LoadSavedItems(rev, c, spec, es);
    SavedPasses(rev, spec, st);
  }

  /** The loop of `load` over what `to_save` wrote for elements that each
      reload gives those elements back. */
  lemma LoadSavedItems(rev: Revision, c: Client, spec: FieldSpec, es: seq<FieldState>)
    requires spec.ListSpec? && forall k :: 0 <= k < |es| ==> Fits(rev, spec.elem, es[k])
    requires forall k :: 0 <= k < |es| ==>
               ToSaveF(rev, spec.elem, es[k]).Ok? &&
               LoadFresh(rev, c, spec.elem, ToSaveF(rev, spec.elem, es[k]).value) == Loaded(Pass, es[k])
    ensures SaveItems(rev, spec, es).Ok?
    ensures LoadItems(rev, c, spec, [], SaveItems(rev, spec, es).value) == LoadedItems(Pass, es)
  {
    ListLaws.SaveItemsPointwise(rev, spec, es);
    var vs := SaveItems(rev, spec, es).value;
    ListLaws.LoadItemsPass(rev, c, spec, [], vs);
    ListLaws.LoadItemsStates(rev, c, spec, [], vs);
    assert LoadItems(rev, c, spec, [], vs).states == es;
  }

  lemma ReloadDict(rev: Revision, c: Client, spec: FieldSpec, st: FieldState)
    requires spec.DictSpec? && Reloadable(rev, spec) && WellFormed(rev, spec)
    requires Fits(rev, spec, st) && Stable(rev, spec, st)
    ensures ToSaveF(rev, spec, st).Ok?
    ensures LoadFresh(rev, c, spec, ToSaveF(rev, spec, st).value) == Loaded(Pass, st)
    decreases spec, 0
  {
    var es := st.entries;
    forall k | 0 <= k < |es|
      ensures ToSaveF(rev, spec.key, es[k].key).Ok? && ToSaveF(rev, spec.val, es[k].val).Ok?
      ensures LoadFresh(rev, c, spec.key, ToSaveF(rev, spec.key, es[k].key).value) == Loaded(Pass, es[k].key)
      ensures LoadFresh(rev, c, spec.val, ToSaveF(rev, spec.val, es[k].val).value) == Loaded(Pass, es[k].val)
    {
      ReloadState(rev, c, spec.key, es[k].key);
      ReloadState(rev, c, spec.val, es[k].val);
    }
    DictLaws.SaveEntriesPointwise(rev, spec, es);
    var ps := SaveEntries(rev, spec, es).value;
    forall k | 0 <= k < |ps|
      ensures LoadPair(rev, c, spec, ps[k]) == Ok(es[k])
    {
      DictLaws.LoadPairOf(rev, c, spec.key, spec.val, ps[k]);
    }
    DictLaws.LoadEntriesAllOk(rev, c, spec, ps);
    DictLaws.LoadEntriesValues(rev, c, spec, ps);
    assert LoadEntries(rev, c, spec, ps).value == es;
  }

  /** After a successful `set`, loading what `to_save` writes into a fresh
      field gives back the same field. */
  lemma SetSaveLoad(rev: Revision, c: Client, spec: FieldSpec, st: FieldState, v: Value)
    requires Reloadable(rev, spec) && WellFormed(rev, spec) && Fits(rev, spec, st)
    requires SetF(rev, c, spec, st, v).Ok?
    ensures ToSaveF(rev, spec, SetF(rev, c, spec, st, v).value).Ok?
    ensures LoadFresh(rev, c, spec, ToSaveF(rev, spec, SetF(rev, c, spec, st, v).value).value)
            == Loaded(Pass, SetF(rev, c, spec, st, v).value)
  {
    SetIsStable(rev, c, spec, st, v);
    ReloadState(rev, c, spec, SetF(rev, c, spec, st, v).value);
  }

  // ---------------------------------------------------------------------
  // set(to_save())
  // ---------------------------------------------------------------------

  /** The kinds whose `set` takes back what `to_save` wrote: the plain kinds,
      `Channel`, `Role`, and a current `List` of such kinds. A `Dict` saves
      a list of pairs that its check rejects; a `Guild` or `User` would
      take back the id but run `_update` against a different cache. */
  predicate Resettable(rev: Revision, spec: FieldSpec) {
    match spec
    case ListSpec(elem, _) => rev == Current && Resettable(rev, elem)
    case DictSpec(_, _) => false
    case GuildSpec => false
    case UserSpec => false
    case _ => true
  }

  /** What a `set` produced saves a value that passes the check. */
  lemma SetSavedPasses(rev: Revision, c: Client, spec: FieldSpec, st: FieldState, v: Value)
    requires Resettable(rev, spec) && WellFormed(rev, spec) && Fits(rev, spec, st)
    requires SetF(rev, c, spec, st, v).Ok?
    ensures ToSaveF(rev, spec, SetF(rev, c, spec, st, v).value).Ok?
    ensures Check(rev, spec, ToSaveF(rev, spec, SetF(rev, c, spec, st, v).value).value) == Ok(true)
    decreases spec, 1
  {
    match spec
    case ListSpec(_, _) =>
      var xs := Iterate(v).value;
      assert SetF(rev, c, spec, st, v) == Ok(Items(SetItems(rev, c, spec, xs).value));
      SetItemsSavedPass(rev, c, spec, xs);
    case IntSpec(_, _, _) =>
      ScalarLaws.SetThenGet(rev, c, spec, st, v);
      ScalarLaws.CoercedPasses(rev, spec, v);
    case ColorSpec =>
      ScalarLaws.SetThenGet(rev, c, spec, st, v);
      ScalarLaws.CoercedPasses(rev, spec, v);
    case _ =>
  }

  lemma SetItemsSavedPass(rev: Revision, c: Client, spec: FieldSpec, xs: seq<Value>)
    requires spec.ListSpec? && Resettable(rev, spec) && WellFormed(rev, spec)
    requires SetItems(rev, c, spec, xs).Ok?
    ensures SaveItems(rev, spec, SetItems(rev, c, spec, xs).value).Ok?
    ensures CheckItems(rev, spec, SaveItems(rev, spec, SetItems(rev, c, spec, xs).value).value) == Ok(true)
    decreases spec, 0
  {
    var es := SetItems(rev, c, spec, xs).value;
    ListLaws.SetItemsValues(rev, c, spec, xs);
    forall k | 0 <= k < |es|
      ensures ToSaveF(rev, spec.elem, es[k]).Ok? && Check(rev, spec.elem, ToSaveF(rev, spec.elem, es[k]).value) == Ok(true)
    {
      SetSavedPasses(rev, c, spec.elem, Construct(rev, spec.elem).value, xs[k]);
    }
    ListLaws.SaveItemsPointwise(rev, spec, es);
    ListLaws.CheckItemsAll(rev, spec, SaveItems(rev, spec, es).value);
  }

  /** `set` on a fresh field of what `to_save` wrote after a `set` repeats that `set`'s result. */
  lemma SetSaveSet(rev: Revision, c: Client, spec: FieldSpec, st: FieldState, v: Value)
    requires Resettable(rev, spec) && WellFormed(rev, spec) && Fits(rev, spec, st)
    requires SetF(rev, c, spec, st, v).Ok?
    ensures ToSaveF(rev, spec, SetF(rev, c, spec, st, v).value).Ok?
    ensures SetFresh(rev, c, spec, ToSaveF(rev, spec, SetF(rev, c, spec, st, v).value).value) == SetF(rev, c, spec, st, v)
    decreases spec, 1
  {
    SetSavedPasses(rev, c, spec, st, v);
    match spec
    case ListSpec(_, _) =>
      var xs := Iterate(v).value;
      assert SetF(rev, c, spec, st, v) == Ok(Items(SetItems(rev, c, spec, xs).value));
      SetItemsSaveSet(rev, c, spec, xs);
    case IntSpec(_, _, _) =>
      ScalarLaws.SetThenGet(rev, c, spec, st, v);
      ScalarLaws.CoercedPasses(rev, spec, v);
    case ColorSpec =>
      ScalarLaws.SetThenGet(rev, c, spec, st, v);
    case _ =>
  }

  lemma SetItemsSaveSet(rev: Revision, c: Client, spec: FieldSpec, xs: seq<Value>)
    requires spec.ListSpec? && Resettable(rev, spec) && WellFormed(rev, spec)
    requires SetItems(rev, c, spec, xs).Ok?
    ensures SaveItems(rev, spec, SetItems(rev, c, spec, xs).value).Ok?
    ensures SetItems(rev, c, spec, SaveItems(rev, spec, SetItems(rev, c, spec, xs).value).value) == SetItems(rev, c, spec, xs)
    decreases spec, 0
  {
    var es := SetItems(rev, c, spec, xs).value;
    ListLaws.SetItemsValues(rev, c, spec, xs);
    forall k | 0 <= k < |es|
      ensures ToSaveF(rev, spec.elem, es[k]).Ok? && SetFresh(rev, c, spec.elem, ToSaveF(rev, spec.elem, es[k]).value) == Ok(es[k])
    {
      SetSaveSet(rev, c, spec.elem, Construct(rev, spec.elem).value, xs[k]);
    }
    ListLaws.SaveItemsPointwise(rev, spec, es);
    var vs := SaveItems(rev, spec, es).value;
    ListLaws.SetItemsOk(rev, c, spec, vs);
    ListLaws.SetItemsValues(rev, c, spec, vs);
    assert SetItems(rev, c, spec, vs).value == es;
  }

  /** A state the configuration container restores from its file: when its
      saved value is `None`, which the file drops, it is the fresh state;
      otherwise `set` on a fresh field of its saved value rebuilds it. */
  predicate Resets(rev: Revision, c: Client, spec: FieldSpec, st: FieldState) {
    && Fits(rev, spec, st)
    && ToSaveF(rev, spec, st).Ok?
    && (ToSaveF(rev, spec, st).value == VNone ==> Construct(rev, spec) == Ok(st))
    && (ToSaveF(rev, spec, st).value != VNone ==> SetFresh(rev, c, spec, ToSaveF(rev, spec, st).value) == Ok(st))
  }

  /** A fresh field of a resettable kind is restored. */
  lemma FreshResets(rev: Revision, c: Client, spec: FieldSpec)
    requires Resettable(rev, spec) && WellFormed(rev, spec)
    ensures Resets(rev, c, spec, Construct(rev, spec).value)
  {
    if spec.StrSpec? && rev == Current {
      assert SetFresh(rev, c, spec, VStr("")) == Ok(Scalar(VStr("")));
    } else if spec.ListSpec? {
      assert Check(rev, spec, VList([])) == Ok(true);
      assert SetItems(rev, c, spec, []) == Ok([]);
    }
  }

  /** Every state a `set` of a resettable kind produces is restored. */
  lemma SetResets(rev: Revision, c: Client, spec: FieldSpec, st: FieldState, v: Value)
    requires Resettable(rev, spec) && WellFormed(rev, spec) && Fits(rev, spec, st)
    requires SetF(rev, c, spec, st, v).Ok?
    ensures Resets(rev, c, spec, SetF(rev, c, spec, st, v).value)
  {
    SetSaveSet(rev, c, spec, st, v);
    var s := SetF(rev, c, spec, st, v).value;
    if ToSaveF(rev, spec, s).value == VNone {
      match spec
      case IntSpec(_, _, _) =>
        ScalarLaws.SetThenGet(rev, c, spec, st, v);
        assert v != VNone;
      case ColorSpec =>
      case BoolSpec =>
      case StrSpec =>
      case ListSpec(_, _) =>
      case ChannelSpec =>
      case RoleSpec =>
    }
  }

  // ---------------------------------------------------------------------
  // Corrected definitions
  // ---------------------------------------------------------------------

  /** The current `Dict.set` as its saved form evidently intends: a list of
      pairs, which is what `to_save` writes, is read as `load` reads it into
      a fresh field; any other value is set as before. */
  function SetReadingSaved(c: Client, spec: FieldSpec, st: FieldState, v: Value): Result<FieldState, Error>
    requires spec.DictSpec? && Fits(Current, spec, st)
  {
    if v.VList? then
      var l := LoadFresh(Current, c, spec, v);
      if l.outcome.Pass? then Ok(l.state) else Err(l.outcome.error)
    else SetF(Current, c, spec, st, v)
  }

  /** With that `set`, a `Dict` takes back what it saved: the container's
      `load`, which applies `set` to each saved value on a fresh field,
      restores the field. */
  lemma SetReadsSaved(c: Client, spec: FieldSpec, st: FieldState, v: Value)
    requires spec.DictSpec? && Reloadable(Current, spec) && WellFormed(Current, spec) && Fits(Current, spec, st)
    requires SetF(Current, c, spec, st, v).Ok?
    ensures ToSaveF(Current, spec, SetF(Current, c, spec, st, v).value).Ok?
    ensures SetReadingSaved(c, spec, Construct(Current, spec).value, ToSaveF(Current, spec, SetF(Current, c, spec, st, v).value).value)
            == SetF(Current, c, spec, st, v)
  {
    var s := SetF(Current, c, spec, st, v).value;
    SetIsStable(Current, c, spec, st, v);
    ReloadDict(Current, c, spec, s);
    assert ToSaveF(Current, spec, s).value.VList?;
  }

  /** The current `List.load` with `self.values = []` after the check, so
      that loading replaces the elements rather than appending to them. */
  function LoadReplacing(c: Client, spec: FieldSpec, st: FieldState, v: Value): Loaded
    requires spec.ListSpec? && Fits(Current, spec, st)
  {
    if Check(Current, spec, v) == Ok(true) then LoadF(Current, c, spec, Items([]), v)
    else LoadF(Current, c, spec, st, v)
  }

  /** With that `load`, whatever the field held before, loading a saved
      list restores exactly the saved state. */
  lemma LoadReplacingRestores(c: Client, spec: FieldSpec, before: FieldState, st: FieldState)
    requires spec.ListSpec? && Reloadable(Current, spec) && WellFormed(Current, spec)
    requires Fits(Current, spec, before) && Fits(Current, spec, st) && Stable(Current, spec, st)
    ensures ToSaveF(Current, spec, st).Ok?
    ensures LoadReplacing(c, spec, before, ToSaveF(Current, spec, st).value) == Loaded(Pass, st)
  {
    ReloadList(Current, c, spec, st);
    SavedPasses(Current, spec, st);
  }
}
