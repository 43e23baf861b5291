/**
 * What the `Dict` field promises: its check runs over every key and value,
 * `set` builds a fresh key field and value field per entry, `get` rebuilds a
 * dict from the element fields, `to_save` writes `[key, value]` pairs, and
 * `load` reads such pairs back, all or nothing.
 */
module DictLaws {
  import opened Wrappers
  import opened Errors
  import opened PyValues
  import opened FieldTypes
  import opened FieldOps

  /** A fresh `Dict` holds `None`: `get` gives `{}` and `to_save` gives `[]`. */
  lemma FreshDict(rev: Revision, c: Client, kt: FieldSpec, vt: FieldSpec)
    ensures && Construct(rev, DictSpec(kt, vt)).value == Unset
      && GetF(rev, c, DictSpec(kt, vt), Construct(rev, DictSpec(kt, vt)).value) == Got(Ok(VDict([])), Construct(rev, DictSpec(kt, vt)).value)
      && ToSaveF(rev, DictSpec(kt, vt), Construct(rev, DictSpec(kt, vt)).value) == Ok(VList([]))
  {
  }

  // ---------------------------------------------------------------------
  // check_value
  // ---------------------------------------------------------------------

  /** The key passes the key check and the value passes the value check. */
  predicate PairPasses(rev: Revision, spec: FieldSpec, k: Value, v: Value)
    requires spec.DictSpec?
  {
    Check(rev, spec.key, k) == Ok(true) && Check(rev, spec.val, v) == Ok(true)
  }

  /** The loop of the check accepts exactly when every entry passes. */
  lemma {:induction false} CheckEntriesAll(rev: Revision, spec: FieldSpec, es: seq<Pair>)
    requires spec.DictSpec?
    ensures CheckEntries(rev, spec, es) == Ok(true) <==>
              forall k :: 0 <= k < |es| ==> PairPasses(rev, spec, es[k].key, es[k].val)
  {
    if |es| > 0 {
      CheckEntriesAll(rev, spec, es[1..]);
      assert forall k :: 1 <= k < |es| ==> es[1..][k - 1] == es[k];
    }
  }

  /** `Dict.check_value`: a dict passes exactly when all its keys and values
      do; the legacy revision also accepts a two-item list or tuple as a single
      pair; anything else is rejected. */
  lemma DictCheck(rev: Revision, kt: FieldSpec, vt: FieldSpec, x: Value)
    requires Construct(rev, kt).Ok? && Construct(rev, vt).Ok?
    ensures x.VDict? ==>
              (Check(rev, DictSpec(kt, vt), x) == Ok(true) <==>
                 forall k :: 0 <= k < |x.entries| ==> PairPasses(rev, DictSpec(kt, vt), x.entries[k].key, x.entries[k].val))
    ensures rev == Legacy && (x.VList? || x.VTuple?) && |x.items| == 2 ==>
              (Check(rev, DictSpec(kt, vt), x) == Ok(true) <==> PairPasses(rev, DictSpec(kt, vt), x.items[0], x.items[1]))
    ensures !x.VDict? && !(rev == Legacy && (x.VList? || x.VTuple?) && |x.items| == 2) ==>
              Check(rev, DictSpec(kt, vt), x) == Ok(false)
  {
    var spec := DictSpec(kt, vt);
    DictCheckCases(rev, kt, vt, x);
    if x.VDict? {
      CheckEntriesAll(rev, spec, x.entries);
    } else if rev == Legacy && (x.VList? || x.VTuple?) && |x.items| == 2 {
      assert CheckPair(rev, spec, x.items[0], x.items[1]) == Ok(true) <==> PairPasses(rev, spec, x.items[0], x.items[1]);
    }
  }

  /** The dispatch of `Dict.check_value` once both inner fields construct. */
  lemma DictCheckCases(rev: Revision, kt: FieldSpec, vt: FieldSpec, x: Value)
    requires Construct(rev, kt).Ok? && Construct(rev, vt).Ok?
    ensures Check(rev, DictSpec(kt, vt), x) ==
              if x.VDict? then CheckEntries(rev, DictSpec(kt, vt), x.entries)
              else if rev == Legacy && (x.VList? || x.VTuple?) && |x.items| == 2 then
                CheckPair(rev, DictSpec(kt, vt), x.items[0], x.items[1])
              else Ok(false)
  {
  }

  // ---------------------------------------------------------------------
  // set
  // ---------------------------------------------------------------------

  /** The entry's key and value can each be set on a fresh field. */
  predicate PairSets(rev: Revision, c: Client, spec: FieldSpec, p: Pair)
    requires spec.DictSpec?
  {
    SetFresh(rev, c, spec.key, p.key).Ok? && SetFresh(rev, c, spec.val, p.val).Ok?
  }

  /** The loop of `set` succeeds exactly when every key and value can be set on fresh fields. */
  lemma {:induction false} SetEntriesOk(rev: Revision, c: Client, spec: FieldSpec, ps: seq<Pair>)
    requires spec.DictSpec?
    ensures SetEntries(rev, c, spec, ps).Ok? <==> forall k :: 0 <= k < |ps| ==> PairSets(rev, c, spec, ps[k])
  {
    if |ps| > 0 {
      var init := ps[..|ps| - 1];
      SetEntriesOk(rev, c, spec, init);
      SetEntriesSnoc(rev, c, spec, ps);
      assert forall k :: 0 <= k < |init| ==> init[k] == ps[k];
    }
  }

  /** One step of the loop of `set`: the last pair is set after the others. */
  lemma SetEntriesSnoc(rev: Revision, c: Client, spec: FieldSpec, ps: seq<Pair>)
    requires spec.DictSpec? && ps != []
    ensures SetEntries(rev, c, spec, ps).Ok? <==>
              SetEntries(rev, c, spec, ps[..|ps| - 1]).Ok? && PairSets(rev, c, spec, ps[|ps| - 1])
    ensures SetEntries(rev, c, spec, ps).Ok? ==>
              SetEntries(rev, c, spec, ps).value == SetEntries(rev, c, spec, ps[..|ps| - 1]).value +
                [Entry(SetFresh(rev, c, spec.key, ps[|ps| - 1].key).value, SetFresh(rev, c, spec.val, ps[|ps| - 1].val).value)]
  {
  }

  /** A successful loop of `set` holds, per entry and in order, the fresh key
      field set to the key and the fresh value field set to the value. */
  lemma {:induction false} SetEntriesValues(rev: Revision, c: Client, spec: FieldSpec, ps: seq<Pair>)
    requires spec.DictSpec? && SetEntries(rev, c, spec, ps).Ok?
    ensures forall k :: 0 <= k < |ps| ==>
              && PairSets(rev, c, spec, ps[k])
              && SetEntries(rev, c, spec, ps).value[k] ==
                 Entry(SetFresh(rev, c, spec.key, ps[k].key).value, SetFresh(rev, c, spec.val, ps[k].val).value)
  {
    if |ps| > 0 {
      var init := ps[..|ps| - 1];
      SetEntriesSnoc(rev, c, spec, ps);
      SetEntriesValues(rev, c, spec, init);
      assert forall k :: 0 <= k < |init| ==> init[k] == ps[k];
    }
  }

  /** `set` of a `Dict`: after the check, only a real dict can be stored (a
      legacy pair that passed the check raises `AttributeError`), and it is
      stored all or nothing, one entry per item. */
  lemma SetDict(rev: Revision, c: Client, kt: FieldSpec, vt: FieldSpec, st: FieldState, v: Value)
    requires Fits(rev, DictSpec(kt, vt), st)
    ensures && (SetF(rev, c, DictSpec(kt, vt), st, v).Ok? <==>
            && Check(rev, DictSpec(kt, vt), v) == Ok(true)
            && v.VDict?
            && forall k :: 0 <= k < |v.entries| ==> PairSets(rev, c, DictSpec(kt, vt), v.entries[k]))
      && (Check(rev, DictSpec(kt, vt), v) == Ok(true) && !v.VDict? ==> SetF(rev, c, DictSpec(kt, vt), st, v) == Err(AttributeError))
      && (SetF(rev, c, DictSpec(kt, vt), st, v).Ok? ==>
            && SetF(rev, c, DictSpec(kt, vt), st, v).value.Pairs?
            && |SetF(rev, c, DictSpec(kt, vt), st, v).value.entries| == |v.entries|
            && forall k :: 0 <= k < |v.entries| ==>
                 SetF(rev, c, DictSpec(kt, vt), st, v).value.entries[k] == Entry(SetFresh(rev, c, kt, v.entries[k].key).value,
                                             SetFresh(rev, c, vt, v.entries[k].val).value))
  {
    SetDictEntries(rev, c, kt, vt, st, v);
    if v.VDict? {
      SetEntriesOk(rev, c, DictSpec(kt, vt), v.entries);
      if SetEntries(rev, c, DictSpec(kt, vt), v.entries).Ok? {
        SetEntriesValues(rev, c, DictSpec(kt, vt), v.entries);
      }
    }
  }

  /** `set` of a `Dict` that passed the check is the loop over its entries. */
  lemma SetDictEntries(rev: Revision, c: Client, kt: FieldSpec, vt: FieldSpec, st: FieldState, v: Value)
    requires Fits(rev, DictSpec(kt, vt), st)
    ensures SetF(rev, c, DictSpec(kt, vt), st, v).Ok? <==>
              && Check(rev, DictSpec(kt, vt), v) == Ok(true)
              && v.VDict?
              && SetEntries(rev, c, DictSpec(kt, vt), v.entries).Ok?
    ensures Check(rev, DictSpec(kt, vt), v) == Ok(true) && !v.VDict? ==> SetF(rev, c, DictSpec(kt, vt), st, v) == Err(AttributeError)
    ensures SetF(rev, c, DictSpec(kt, vt), st, v).Ok? ==>
              SetF(rev, c, DictSpec(kt, vt), st, v).value == Pairs(SetEntries(rev, c, DictSpec(kt, vt), v.entries).value)
  {
  }

  /** A legacy pair `[k, v]` whose parts pass is accepted by the check but
      cannot be stored. */
  lemma LegacyPairNotStored(c: Client, kt: FieldSpec, vt: FieldSpec, st: FieldState, a: Value, b: Value)
    requires Construct(Legacy, kt).Ok? && Construct(Legacy, vt).Ok?
    requires Fits(Legacy, DictSpec(kt, vt), st)
    requires PairPasses(Legacy, DictSpec(kt, vt), a, b)
    ensures Check(Legacy, DictSpec(kt, vt), VList([a, b])) == Ok(true)
    ensures SetF(Legacy, c, DictSpec(kt, vt), st, VList([a, b])) == Err(AttributeError)
  {
  }

  /** The legacy `set` as its check implies it should be: a two-item list
      or tuple that passed the check is stored as a dict of one entry, and
      any other value is set as before. */
  function SetLegacyPair(c: Client, spec: FieldSpec, st: FieldState, v: Value): (r: Result<FieldState, Error>)
    requires spec.DictSpec? && Fits(Legacy, spec, st)
    ensures r.Ok? ==> Fits(Legacy, spec, r.value)
  {
    if (v.VList? || v.VTuple?) && |v.items| == 2 then
      match Check(Legacy, spec, v)
      case Err(e) => Err(e)
      case Ok(false) => Err(ValueError)
      case Ok(true) =>
        match SetEntries(Legacy, c, spec, [Pair(v.items[0], v.items[1])])
        case Err(e) => Err(e)
        case Ok(es) => Ok(Pairs(es))
    else SetF(Legacy, c, spec, st, v)
  }

  /** With that `set`, a pair the check accepts is stored, as one entry of
      a fresh key field and a fresh value field. */
  lemma LegacyPairStored(c: Client, kt: FieldSpec, vt: FieldSpec, st: FieldState, a: Value, b: Value)
    requires Construct(Legacy, kt).Ok? && Construct(Legacy, vt).Ok?
    requires Fits(Legacy, DictSpec(kt, vt), st)
    requires PairPasses(Legacy, DictSpec(kt, vt), a, b) && PairSets(Legacy, c, DictSpec(kt, vt), Pair(a, b))
    ensures SetLegacyPair(c, DictSpec(kt, vt), st, VList([a, b]))
            == Ok(Pairs([Entry(SetFresh(Legacy, c, kt, a).value, SetFresh(Legacy, c, vt, b).value)]))
  {
    LegacyPairNotStored(c, kt, vt, st, a, b);
    SetEntriesSnoc(Legacy, c, DictSpec(kt, vt), [Pair(a, b)]);
    var ps := [Pair(a, b)];
    assert ps[..0] == [] && ps[0] == Pair(a, b);
    assert SetEntries(Legacy, c, DictSpec(kt, vt), []) == Ok([]);
    assert SetEntries(Legacy, c, DictSpec(kt, vt), ps).Ok?;
    assert ps[|ps| - 1].key == a && ps[|ps| - 1].val == b;
    var e := Entry(SetFresh(Legacy, c, kt, a).value, SetFresh(Legacy, c, vt, b).value);
    assert SetEntries(Legacy, c, DictSpec(kt, vt), ps).value == [] + [e];
    assert [] + [e] == [e];
    var v := VList([a, b]);
    assert v.items[0] == a && v.items[1] == b;
    assert Check(Legacy, DictSpec(kt, vt), v) == Ok(true);
    assert SetEntries(Legacy, c, DictSpec(kt, vt), [Pair(a, b)])
           == Ok([Entry(SetFresh(Legacy, c, kt, a).value, SetFresh(Legacy, c, vt, b).value)]);
  }

  /** It agrees with the as-written `set` on every value that is not such a
      pair, a dict among them. */
  lemma LegacyPairOtherwise(c: Client, spec: FieldSpec, st: FieldState, v: Value)
    requires spec.DictSpec? && Fits(Legacy, spec, st)
    requires !((v.VList? || v.VTuple?) && |v.items| == 2)
    ensures SetLegacyPair(c, spec, st, v) == SetF(Legacy, c, spec, st, v)
  {
  }

  // ---------------------------------------------------------------------
  // get
  // ---------------------------------------------------------------------

  /** When every key field and value field answers `get`, the dict `get`
      returns is the one built from those answers in entry order. */
  lemma {:induction false} GetEntriesDict(rev: Revision, c: Client, spec: FieldSpec, es: seq<Entry>, ps: seq<Pair>)
    requires spec.DictSpec?
    requires forall k :: 0 <= k < |es| ==> Fits(rev, spec.key, es[k].key) && Fits(rev, spec.val, es[k].val)
    requires |ps| == |es|
    requires forall k :: 0 <= k < |es| ==>
               GetF(rev, c, spec.key, es[k].key).result == Ok(ps[k].key)
               && GetF(rev, c, spec.val, es[k].val).result == Ok(ps[k].val)
    ensures GetEntries(rev, c, spec, es).result == DictFromPairs(ps)
  {
    if |es| > 0 {
      var init := es[..|es| - 1];
      assert forall k :: 0 <= k < |init| ==> init[k] == es[k];
      assert forall k :: 0 <= k < |init| ==> ps[..|ps| - 1][k] == ps[k];
      GetEntriesDict(rev, c, spec, init, ps[..|ps| - 1]);
    }
  }

  /** Setting `value` on a field and then getting it back is the identity. */
  predicate SetGetIdentity(rev: Revision, c: Client, spec: FieldSpec, x: Value) {
    && SetFresh(rev, c, spec, x).Ok?
    && Fits(rev, spec, SetFresh(rev, c, spec, x).value)
    && GetF(rev, c, spec, SetFresh(rev, c, spec, x).value).result == Ok(x)
  }

  /** The entries `set` built from `ps`, asked in order, give back `ps`. */
  lemma GetEntriesOfSet(rev: Revision, c: Client, spec: FieldSpec, ps: seq<Pair>)
    requires spec.DictSpec? && SetEntries(rev, c, spec, ps).Ok? && DictKeys(ps)
    requires forall k :: 0 <= k < |ps| ==> SetGetIdentity(rev, c, spec.key, ps[k].key) && SetGetIdentity(rev, c, spec.val, ps[k].val)
    ensures GetEntries(rev, c, spec, SetEntries(rev, c, spec, ps).value).result == Ok(ps)
  {
    SetEntriesValues(rev, c, spec, ps);
    var es := SetEntries(rev, c, spec, ps).value;
    forall k | 0 <= k < |es|
      ensures GetF(rev, c, spec.key, es[k].key).result == Ok(ps[k].key)
      ensures GetF(rev, c, spec.val, es[k].val).result == Ok(ps[k].val)
    {
      assert SetGetIdentity(rev, c, spec.key, ps[k].key) && SetGetIdentity(rev, c, spec.val, ps[k].val);
    }
    GetEntriesDict(rev, c, spec, es, ps);
    DictFromDict(ps);
  }

  /** When the key kind and the value kind return what was set on them, a
      dict that was set is returned unchanged by `get`. */
  lemma DictSetThenGet(rev: Revision, c: Client, kt: FieldSpec, vt: FieldSpec, st: FieldState, ps: seq<Pair>)
    requires Fits(rev, DictSpec(kt, vt), st)
    requires Check(rev, DictSpec(kt, vt), VDict(ps)) == Ok(true)
    requires DictKeys(ps)
    requires forall k :: 0 <= k < |ps| ==> SetGetIdentity(rev, c, kt, ps[k].key) && SetGetIdentity(rev, c, vt, ps[k].val)
    ensures SetF(rev, c, DictSpec(kt, vt), st, VDict(ps)).Ok?
    ensures GetF(rev, c, DictSpec(kt, vt), SetF(rev, c, DictSpec(kt, vt), st, VDict(ps)).value).result == Ok(VDict(ps))
  {
    var spec := DictSpec(kt, vt);
    SetEntriesOk(rev, c, spec, ps);
    SetDictEntries(rev, c, kt, vt, st, VDict(ps));
    var es := SetEntries(rev, c, spec, ps).value;
    GetEntriesOfSet(rev, c, spec, ps);
    GetPairs(rev, c, spec, es, ps);
  }

  /** `get` of stored pairs is the dict of what the entries return. */
  lemma GetPairs(rev: Revision, c: Client, spec: FieldSpec, es: seq<Entry>, ps: seq<Pair>)
    requires spec.DictSpec? && Fits(rev, spec, Pairs(es))
    requires GetEntries(rev, c, spec, es).result == Ok(ps)
    ensures GetF(rev, c, spec, Pairs(es)).result == Ok(VDict(ps))
  {
  }

  // ---------------------------------------------------------------------
  // to_save
  // ---------------------------------------------------------------------

  /** `to_save` writes one `[key, value]` list per entry, in order, and fails
      exactly when a key field or value field does. */
  lemma {:induction false} SaveEntriesPointwise(rev: Revision, spec: FieldSpec, es: seq<Entry>)
    requires spec.DictSpec?
    requires forall k :: 0 <= k < |es| ==> Fits(rev, spec.key, es[k].key) && Fits(rev, spec.val, es[k].val)
    ensures SaveEntries(rev, spec, es).Ok? <==>
              forall k :: 0 <= k < |es| ==> ToSaveF(rev, spec.key, es[k].key).Ok? && ToSaveF(rev, spec.val, es[k].val).Ok?
    ensures SaveEntries(rev, spec, es).Ok? ==> forall k :: 0 <= k < |es| ==>
              SaveEntries(rev, spec, es).value[k] ==
              VList([ToSaveF(rev, spec.key, es[k].key).value, ToSaveF(rev, spec.val, es[k].val).value])
  {
    if |es| > 0 {
      var init := es[..|es| - 1];
      SaveEntriesPointwise(rev, spec, init);
      assert forall k :: 0 <= k < |init| ==> init[k] == es[k];
    }
  }

  // ---------------------------------------------------------------------
  // load
  // ---------------------------------------------------------------------

  /** The loop of `load` succeeds when every saved pair loads; it then holds
      the loaded entries in order. */
  lemma {:induction false} LoadEntriesAllOk(rev: Revision, c: Client, spec: FieldSpec, xs: seq<Value>)
    requires spec.DictSpec?
    requires forall k :: 0 <= k < |xs| ==> LoadPair(rev, c, spec, xs[k]).Ok?
    ensures LoadEntries(rev, c, spec, xs).Ok?
  {
    if |xs| > 0 {
      var init := xs[..|xs| - 1];
      assert forall k :: 0 <= k < |init| ==> init[k] == xs[k];
      LoadEntriesAllOk(rev, c, spec, init);
    }
  }

  lemma {:induction false} LoadEntriesValues(rev: Revision, c: Client, spec: FieldSpec, xs: seq<Value>)
    requires spec.DictSpec? && LoadEntries(rev, c, spec, xs).Ok?
    ensures forall k :: 0 <= k < |xs| ==>
              LoadPair(rev, c, spec, xs[k]).Ok? && LoadEntries(rev, c, spec, xs).value[k] == LoadPair(rev, c, spec, xs[k]).value
  {
    if |xs| > 0 {
      var init := xs[..|xs| - 1];
      LoadEntriesSnoc(rev, c, spec, xs);
      LoadEntriesValues(rev, c, spec, init);
      assert forall k :: 0 <= k < |init| ==> init[k] == xs[k];
      LoadedSnoc(rev, c, spec, xs, LoadEntries(rev, c, spec, init).value, LoadPair(rev, c, spec, xs[|xs| - 1]).value);
    }
  }

  /** The pointwise statement of `LoadEntriesValues` survives appending the
      entry loaded from the last saved pair. */
  lemma LoadedSnoc(rev: Revision, c: Client, spec: FieldSpec, xs: seq<Value>, front: seq<Entry>, e: Entry)
    requires spec.DictSpec? && xs != [] && |front| == |xs| - 1
    requires forall k :: 0 <= k < |xs| - 1 ==> LoadPair(rev, c, spec, xs[k]).Ok? && front[k] == LoadPair(rev, c, spec, xs[k]).value
    requires LoadPair(rev, c, spec, xs[|xs| - 1]) == Ok(e)
    ensures forall k :: 0 <= k < |xs| ==> LoadPair(rev, c, spec, xs[k]).Ok? && (front + [e])[k] == LoadPair(rev, c, spec, xs[k]).value
  {
  }

  /** One step of the loop of `load`: the last saved pair is loaded after
      the others. */
  lemma LoadEntriesSnoc(rev: Revision, c: Client, spec: FieldSpec, xs: seq<Value>)
    requires spec.DictSpec? && xs != [] && LoadEntries(rev, c, spec, xs).Ok?
    ensures LoadEntries(rev, c, spec, xs[..|xs| - 1]).Ok? && LoadPair(rev, c, spec, xs[|xs| - 1]).Ok?
    ensures LoadEntries(rev, c, spec, xs).value ==
            LoadEntries(rev, c, spec, xs[..|xs| - 1]).value + [LoadPair(rev, c, spec, xs[|xs| - 1]).value]
  {
  }

  /** One saved pair `[a, b]` loads `a` on a fresh key field and `b` on a
      fresh value field, and fails as the first of them fails. */
  lemma LoadPairOf(rev: Revision, c: Client, kt: FieldSpec, vt: FieldSpec, x: Value)
    requires Construct(rev, kt).Ok? && Construct(rev, vt).Ok?
    requires x.VList? && |x.items| >= 2
    ensures LoadPair(rev, c, DictSpec(kt, vt), x) ==
        if LoadFresh(rev, c, kt, x.items[0]).outcome.Fail? then Err(LoadFresh(rev, c, kt, x.items[0]).outcome.error)
        else if LoadFresh(rev, c, vt, x.items[1]).outcome.Fail? then Err(LoadFresh(rev, c, vt, x.items[1]).outcome.error)
        else Ok(Entry(LoadFresh(rev, c, kt, x.items[0]).state, LoadFresh(rev, c, vt, x.items[1]).state))
  {
    assert Index(x, 0) == Ok(x.items[0]) && Index(x, 1) == Ok(x.items[1]);
  }

  /** A saved item that cannot be indexed raises `TypeError`, an empty one `IndexError`. */
  lemma LoadPairMalformed(rev: Revision, c: Client, kt: FieldSpec, vt: FieldSpec, x: Value)
    requires Construct(rev, kt).Ok?
    requires x.VNone? || x.VInt? || x.VBool? || x.VEntity? || x == VList([])
    ensures LoadPair(rev, c, DictSpec(kt, vt), x) == Err(if x == VList([]) then IndexError else TypeError)
  {
  }

  /** `load` of a `Dict` is all or nothing: an exception leaves the old
      values, success replaces them with one loaded entry per saved pair. */
  lemma LoadDict(rev: Revision, c: Client, kt: FieldSpec, vt: FieldSpec, st: FieldState, v: Value)
    requires Fits(rev, DictSpec(kt, vt), st)
    ensures && (LoadF(rev, c, DictSpec(kt, vt), st, v).outcome.Fail? ==> LoadF(rev, c, DictSpec(kt, vt), st, v).state == st)
      && (Iterate(v).None? ==> LoadF(rev, c, DictSpec(kt, vt), st, v).outcome == Fail(TypeError))
      && (Iterate(v).Some? ==>
            && (LoadF(rev, c, DictSpec(kt, vt), st, v).outcome.Pass? <==> forall k :: 0 <= k < |Iterate(v).value| ==> LoadPair(rev, c, DictSpec(kt, vt), Iterate(v).value[k]).Ok?)
            && (LoadF(rev, c, DictSpec(kt, vt), st, v).outcome.Pass? ==>
                  && LoadF(rev, c, DictSpec(kt, vt), st, v).state.Pairs?
                  && |LoadF(rev, c, DictSpec(kt, vt), st, v).state.entries| == |Iterate(v).value|
                  && forall k :: 0 <= k < |Iterate(v).value| ==>
                       LoadF(rev, c, DictSpec(kt, vt), st, v).state.entries[k] == LoadPair(rev, c, DictSpec(kt, vt), Iterate(v).value[k]).value))
  {
    LoadDictCases(rev, c, kt, vt, st, v);
    if Iterate(v).Some? {
      if LoadEntries(rev, c, DictSpec(kt, vt), Iterate(v).value).Ok? {
        LoadEntriesValues(rev, c, DictSpec(kt, vt), Iterate(v).value);
      } else if forall k :: 0 <= k < |Iterate(v).value| ==> LoadPair(rev, c, DictSpec(kt, vt), Iterate(v).value[k]).Ok? {
        LoadEntriesAllOk(rev, c, DictSpec(kt, vt), Iterate(v).value);
      }
    }
  }

  /** The dispatch of `Dict.load`. */
  lemma LoadDictCases(rev: Revision, c: Client, kt: FieldSpec, vt: FieldSpec, st: FieldState, v: Value)
    requires Fits(rev, DictSpec(kt, vt), st)
    ensures LoadF(rev, c, DictSpec(kt, vt), st, v) ==
              if Iterate(v).None? then Loaded(Fail(TypeError), st)
              else if LoadEntries(rev, c, DictSpec(kt, vt), Iterate(v).value).Err? then
                Loaded(Fail(LoadEntries(rev, c, DictSpec(kt, vt), Iterate(v).value).error), st)
              else Loaded(Pass, Pairs(LoadEntries(rev, c, DictSpec(kt, vt), Iterate(v).value).value))
  {
  }

  /** What `to_save` writes for a current `Dict` is a list, which its own
      `set` always refuses with `ValueError`. */
  lemma SavedDictNotSettable(c: Client, kt: FieldSpec, vt: FieldSpec, st: FieldState, blank: FieldState)
    requires WellFormed(Current, DictSpec(kt, vt))
    requires Fits(Current, DictSpec(kt, vt), st) && Fits(Current, DictSpec(kt, vt), blank)
    requires ToSaveF(Current, DictSpec(kt, vt), st).Ok?
    ensures ToSaveF(Current, DictSpec(kt, vt), st).value.VList?
    ensures SetF(Current, c, DictSpec(kt, vt), blank, ToSaveF(Current, DictSpec(kt, vt), st).value) == Err(ValueError)
  {
  }
}
