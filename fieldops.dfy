/**
 * `set`, `get`, `to_save` and `load` of every field kind, as functions from
 * the old field state to the result and the new field state.
 */
module FieldOps {
  import opened Wrappers
  import opened Errors
  import opened PyValues
  import opened FieldTypes

  // ---------------------------------------------------------------------
  // set
  // ---------------------------------------------------------------------

  /** `set(v)`: the new state, or the exception it raises. Every kind
      assigns its attributes only once nothing more can fail, so an
      exception leaves the field as it was. */
  function SetF(rev: Revision, c: Client, spec: FieldSpec, st: FieldState, v: Value): (r: Result<FieldState, Error>)
    ensures r.Ok? ==> Fits(rev, spec, r.value)
    decreases spec, 1, 0
  {
    match spec
    case IntSpec(_, _, _) =>
      (match Check(rev, spec, v)
       case Err(e) => Err(e)
       case Ok(false) => Err(ValueError)
       case Ok(true) =>
         if rev == Legacy then Ok(Scalar(v))
         else match IntOf(v) case Ok(n) => Ok(Scalar(VInt(n))) case Err(e) => Err(e))
    case BoolSpec => Ok(Scalar(VBool(Truthy(v))))
    case ColorSpec =>
      (match Check(rev, spec, v)
       case Err(e) => Err(e)
       case Ok(false) => Err(ValueError)
       case Ok(true) => match IntOf(v) case Ok(n) => Ok(Scalar(VInt(n))) case Err(e) => Err(e))
    case StrSpec => Ok(Scalar(if rev == Current then VStr(StrOf(v)) else v))
    case ListSpec(_, _) =>
      if rev == Current then
        (match Check(rev, spec, v)
         case Err(e) => Err(e)
         case Ok(false) => Err(ValueError)
         case Ok(true) =>
           match Iterate(v)
           case None => Err(TypeError)
           case Some(xs) => match SetItems(rev, c, spec, xs) case Err(e) => Err(e) case Ok(es) => Ok(Items(es)))
      else
        (match Iterate(v)
         case None => Err(TypeError)
         case Some(xs) => match SetItems(rev, c, spec, xs) case Err(e) => Err(e) case Ok(es) => Ok(Items(es)))
    case DictSpec(_, _) =>
      (match Check(rev, spec, v)
       case Err(e) => Err(e)
       case Ok(false) => Err(ValueError)
       case Ok(true) =>
         if !v.VDict? then Err(AttributeError)
         else match SetEntries(rev, c, spec, v.entries) case Err(e) => Err(e) case Ok(es) => Ok(Pairs(es)))
    case GuildSpec => Ok(SetCached(c, GuildKind, st, v))
    case UserSpec => Ok(SetCached(c, UserKind, st, v))
    case ChannelSpec => Ok(Scalar(v))
    case RoleSpec => Ok(Scalar(v))
  }

  /** `set` of a `Guild` or `User`: store the id, then `_update`, which sees the old cache. */
  function SetCached(c: Client, kind: EntityKind, st: FieldState, v: Value): (r: FieldState)
    ensures r.Cached?
  {
    var id := Unwrap(v, kind);
    match st
    case Cached(_, cached) => Cached(id, Update(c, kind, id, cached))
    case _ => Cached(id, Update(c, kind, id, None))
  }

  /** `new_element = self.type_(); new_element.set(x)`. */
  function SetFresh(rev: Revision, c: Client, spec: FieldSpec, x: Value): (r: Result<FieldState, Error>)
    ensures r.Ok? ==> Fits(rev, spec, r.value)
    decreases spec, 2, 0
  {
    match Construct(rev, spec)
    case Err(e) => Err(e)
    case Ok(blank) => SetF(rev, c, spec, blank, x)
  }

  /** The loop of `List.set` that builds `new_liste`, one element field per item in order. */
  function SetItems(rev: Revision, c: Client, spec: FieldSpec, xs: seq<Value>): (r: Result<seq<FieldState>, Error>)
    requires spec.ListSpec?
    ensures r.Ok? ==> |r.value| == |xs| && forall k :: 0 <= k < |xs| ==> Fits(rev, spec.elem, r.value[k])
    decreases spec, 0, |xs|
  {
    if |xs| == 0 then Ok([])
    else
      match SetItems(rev, c, spec, xs[..|xs| - 1])
      case Err(e) => Err(e)
      case Ok(acc) =>
        match SetFresh(rev, c, spec.elem, xs[|xs| - 1])
        case Err(e) => Err(e)
        case Ok(s) => Ok(acc + [s])
  }

  /** The loop of `Dict.set` over `value.items()`: a fresh key field set to the
      key, then a fresh value field set to the value. */
  function SetEntries(rev: Revision, c: Client, spec: FieldSpec, ps: seq<Pair>): (r: Result<seq<Entry>, Error>)
    requires spec.DictSpec?
    ensures r.Ok? ==> |r.value| == |ps| && forall k :: 0 <= k < |ps| ==>
              Fits(rev, spec.key, r.value[k].key) && Fits(rev, spec.val, r.value[k].val)
    decreases spec, 0, |ps|
  {
    if |ps| == 0 then Ok([])
    else
      match SetEntries(rev, c, spec, ps[..|ps| - 1])
      case Err(e) => Err(e)
      case Ok(acc) =>
        match SetFresh(rev, c, spec.key, ps[|ps| - 1].key)
        case Err(e) => Err(e)
        case Ok(ks) =>
          match SetFresh(rev, c, spec.val, ps[|ps| - 1].val)
          case Err(e) => Err(e)
          case Ok(vs) => Ok(acc + [Entry(ks, vs)])
  }

  // ---------------------------------------------------------------------
  // get
  // ---------------------------------------------------------------------

  /** What `get()` returns or raises, and the field state after it (a `Guild`
      or `User` updates its cache). */
  datatype Got = Got(result: Result<Value, Error>, state: FieldState)
  datatype GotItems = GotItems(result: Result<seq<Value>, Error>, states: seq<FieldState>)
  datatype GotEntries = GotEntries(result: Result<seq<Pair>, Error>, entries: seq<Entry>)

  /** `instance or value`. */
  function Shown(id: Value, cached: Option<Entity>): Value {
    if cached.Some? then VEntity(cached.value) else id
  }

  function GetF(rev: Revision, c: Client, spec: FieldSpec, st: FieldState): (g: Got)
    requires Fits(rev, spec, st)
    ensures Fits(rev, spec, g.state)
    decreases spec, 1, 0
  {
    match st
    case Scalar(v) => Got(Ok(v), st)
    case Cached(id, cached) =>
      var now :=
        if spec.GuildSpec? then Update(c, GuildKind, id, cached)
        else if cached.None? then Update(c, UserKind, id, cached)
        else cached;
      Got(Ok(Shown(id, now)), Cached(id, now))
    case Unset =>
      if spec.ListSpec? then Got(Err(ValueError), st) else Got(Ok(VDict([])), st)
    case Items(es) =>
      var g := GetItems(rev, c, spec, es);
      Got(if g.result.Ok? then Ok(VList(g.result.value)) else Err(g.result.error), Items(g.states))
    case Pairs(es) =>
      var g := GetEntries(rev, c, spec, es);
      Got(if g.result.Ok? then Ok(VDict(g.result.value)) else Err(g.result.error), Pairs(g.entries))
  }

  /** `[v.get() for v in self.values]`: the elements are asked in order; an
      exception stops the comprehension, and the elements already asked keep
      their updated state. */
  function GetItems(rev: Revision, c: Client, spec: FieldSpec, es: seq<FieldState>): (g: GotItems)
    requires spec.ListSpec? && forall k :: 0 <= k < |es| ==> Fits(rev, spec.elem, es[k])
    ensures |g.states| == |es| && forall k :: 0 <= k < |es| ==> Fits(rev, spec.elem, g.states[k])
    ensures g.result.Ok? ==> |g.result.value| == |es|
    decreases spec, 0, |es|
  {
    if |es| == 0 then GotItems(Ok([]), [])
    else
      var init := GetItems(rev, c, spec, es[..|es| - 1]);
      var last := es[|es| - 1];
      if init.result.Err? then GotItems(init.result, init.states + [last])
      else
        var g := GetF(rev, c, spec.elem, last);
        GotItems(if g.result.Ok? then Ok(init.result.value + [g.result.value]) else Err(g.result.error),
                 init.states + [g.state])
  }

  /** `{k.get(): v.get() for k, v in self.values.items()}`: for each entry the
      key field, then the value field, then the insertion, which raises
      `TypeError` for an unhashable key. */
  function GetEntries(rev: Revision, c: Client, spec: FieldSpec, es: seq<Entry>): (g: GotEntries)
    requires spec.DictSpec?
    requires forall k :: 0 <= k < |es| ==> Fits(rev, spec.key, es[k].key) && Fits(rev, spec.val, es[k].val)
    ensures |g.entries| == |es|
    ensures forall k :: 0 <= k < |es| ==> Fits(rev, spec.key, g.entries[k].key) && Fits(rev, spec.val, g.entries[k].val)
    decreases spec, 0, |es|
  {
    if |es| == 0 then GotEntries(Ok([]), [])
    else
      var init := GetEntries(rev, c, spec, es[..|es| - 1]);
      var last := es[|es| - 1];
      if init.result.Err? then GotEntries(init.result, init.entries + [last])
      else
        var gk := GetF(rev, c, spec.key, last.key);
        if gk.result.Err? then GotEntries(Err(gk.result.error), init.entries + [Entry(gk.state, last.val)])
        else
          var gv := GetF(rev, c, spec.val, last.val);
          var now := init.entries + [Entry(gk.state, gv.state)];
          if gv.result.Err? then GotEntries(Err(gv.result.error), now)
          else if !Hashable(gk.result.value) then GotEntries(Err(TypeError), now)
          else GotEntries(Ok(DictInsert(init.result.value, Pair(gk.result.value, gv.result.value))), now)
  }

  // ---------------------------------------------------------------------
  // to_save
  // ---------------------------------------------------------------------

  /** `to_save()`: the serialisable form of the field. */
  function ToSaveF(rev: Revision, spec: FieldSpec, st: FieldState): Result<Value, Error>
    requires Fits(rev, spec, st)
    decreases spec, 1, 0
  {
    match st
    case Scalar(v) => Ok(v)
    case Cached(id, _) => Ok(if Truthy(id) then id else VInt(0))
    case Unset => if spec.ListSpec? then Err(TypeError) else Ok(VList([]))
    case Items(es) =>
      (match SaveItems(rev, spec, es) case Ok(vs) => Ok(VList(vs)) case Err(e) => Err(e))
    case Pairs(es) =>
      (match SaveEntries(rev, spec, es) case Ok(vs) => Ok(VList(vs)) case Err(e) => Err(e))
  }

  /** `[v.to_save() for v in self.values]`. */
  function SaveItems(rev: Revision, spec: FieldSpec, es: seq<FieldState>): (r: Result<seq<Value>, Error>)
    requires spec.ListSpec? && forall k :: 0 <= k < |es| ==> Fits(rev, spec.elem, es[k])
    ensures r.Ok? ==> |r.value| == |es|
    decreases spec, 0, |es|
  {
    if |es| == 0 then Ok([])
    else
      match SaveItems(rev, spec, es[..|es| - 1])
      case Err(e) => Err(e)
      case Ok(acc) =>
        match ToSaveF(rev, spec.elem, es[|es| - 1])
        case Err(e) => Err(e)
        case Ok(v) => Ok(acc + [v])
  }

  /** `[[k.to_save(), v.to_save()] for k, v in self.values.items()]`. */
  function SaveEntries(rev: Revision, spec: FieldSpec, es: seq<Entry>): (r: Result<seq<Value>, Error>)
    requires spec.DictSpec?
    requires forall k :: 0 <= k < |es| ==> Fits(rev, spec.key, es[k].key) && Fits(rev, spec.val, es[k].val)
    ensures r.Ok? ==> |r.value| == |es|
    decreases spec, 0, |es|
  {
    if |es| == 0 then Ok([])
    else
      match SaveEntries(rev, spec, es[..|es| - 1])
      case Err(e) => Err(e)
      case Ok(acc) =>
        match ToSaveF(rev, spec.key, es[|es| - 1].key)
        case Err(e) => Err(e)
        case Ok(k) =>
          match ToSaveF(rev, spec.val, es[|es| - 1].val)
          case Err(e) => Err(e)
          case Ok(v) => Ok(acc + [VList([k, v])])
  }

  // ---------------------------------------------------------------------
  // load
  // ---------------------------------------------------------------------

  /** What `load(v)` raises, if anything, and the field state after it: a
      `List` appends element by element, so an exception can leave some of
      them appended. */
  datatype Loaded = Loaded(outcome: Outcome<Error>, state: FieldState)
  datatype LoadedItems = LoadedItems(outcome: Outcome<Error>, states: seq<FieldState>)

  function LoadF(rev: Revision, c: Client, spec: FieldSpec, st: FieldState, v: Value): (l: Loaded)
    requires Fits(rev, spec, st)
    ensures Fits(rev, spec, l.state)
    decreases spec, 1, 0
  {
    match spec
    case ListSpec(_, _) =>
      if rev == Current then
        (match Check(rev, spec, v)
         case Err(e) => Loaded(Fail(e), st)
         case Ok(false) => Loaded(Fail(ValueError), st)
         case Ok(true) =>
           match Iterate(v)
           case None => Loaded(Fail(TypeError), st)
           case Some(xs) =>
             match st
             case Items(es) =>
               var l := LoadItems(rev, c, spec, es, xs);
               Loaded(l.outcome, Items(l.states))
             case _ => Loaded(Fail(AttributeError), st))
      else
        (match Iterate(v)
         case None => Loaded(Fail(TypeError), st)
         case Some(xs) =>
           match st
           case Items(es) =>
             var l := LoadItems(rev, c, spec, es, xs);
             Loaded(l.outcome, Items(l.states))
           case _ =>
             if |xs| == 0 then Loaded(Pass, st)
             else
               var first := LoadFresh(rev, c, spec.elem, xs[0]);
               Loaded(if first.outcome.Fail? then first.outcome else Fail(AttributeError), st))
    case DictSpec(_, _) =>
      (match Iterate(v)
       case None => Loaded(Fail(TypeError), st)
       case Some(xs) =>
         match LoadEntries(rev, c, spec, xs)
         case Err(e) => Loaded(Fail(e), st)
         case Ok(es) => Loaded(Pass, Pairs(es)))
    case GuildSpec => LoadCached(rev, c, spec, GuildKind, st, v)
    case UserSpec => LoadCached(rev, c, spec, UserKind, st, v)
    case ChannelSpec =>
      if Check(rev, spec, v) == Ok(true) then Loaded(Fail(ValueError), st) else Loaded(Pass, Scalar(v))
    case RoleSpec =>
      if Check(rev, spec, v) == Ok(true) then Loaded(Fail(ValueError), st) else Loaded(Pass, Scalar(v))
    case _ =>
      match Check(rev, spec, v)
      case Err(e) => Loaded(Fail(e), st)
      case Ok(false) => Loaded(Fail(ValueError), st)
      case Ok(true) => Loaded(Pass, Scalar(v))
  }

  /** `load` of a `Guild` or `User`: it raises when `check_value` holds, and
      otherwise sets the value and runs `_update` once more. */
  function LoadCached(rev: Revision, c: Client, spec: FieldSpec, kind: EntityKind, st: FieldState, v: Value): (l: Loaded)
    requires st.Cached?
    ensures l.state.Cached?
  {
    if Check(rev, spec, v) == Ok(true) then Loaded(Fail(ValueError), st)
    else
      match SetCached(c, kind, st, v)
      case Cached(id, cached) => Loaded(Pass, Cached(id, Update(c, kind, id, cached)))
      case other => Loaded(Pass, other)
  }

  /** `new_object = self.type_(); new_object.load(x)`. */
  function LoadFresh(rev: Revision, c: Client, spec: FieldSpec, x: Value): (l: Loaded)
    ensures l.outcome.Pass? ==> Fits(rev, spec, l.state)
    decreases spec, 2, 0
  {
    match Construct(rev, spec)
    case Err(e) => Loaded(Fail(e), Unset)
    case Ok(blank) => LoadF(rev, c, spec, blank, x)
  }

  /** The loop of `List.load`, appending to `self.values` as it goes. */
  function LoadItems(rev: Revision, c: Client, spec: FieldSpec, es: seq<FieldState>, xs: seq<Value>): (l: LoadedItems)
    requires spec.ListSpec? && forall k :: 0 <= k < |es| ==> Fits(rev, spec.elem, es[k])
    ensures forall k :: 0 <= k < |l.states| ==> Fits(rev, spec.elem, l.states[k])
    ensures |es| <= |l.states| <= |es| + |xs| && l.states[..|es|] == es
    ensures l.outcome.Pass? ==> |l.states| == |es| + |xs|
    decreases spec, 0, |xs|
  {
    if |xs| == 0 then LoadedItems(Pass, es)
    else
      var init := LoadItems(rev, c, spec, es, xs[..|xs| - 1]);
      if init.outcome.Fail? then init
      else
        var l := LoadFresh(rev, c, spec.elem, xs[|xs| - 1]);
        if l.outcome.Fail? then LoadedItems(l.outcome, init.states)
        else LoadedItems(Pass, init.states + [l.state])
  }

  /** The loop of `Dict.load` over saved `[key, value]` pairs, building a new dict. */
  function LoadEntries(rev: Revision, c: Client, spec: FieldSpec, xs: seq<Value>): (r: Result<seq<Entry>, Error>)
    requires spec.DictSpec?
    ensures r.Ok? ==> |r.value| == |xs| && forall k :: 0 <= k < |xs| ==>
              Fits(rev, spec.key, r.value[k].key) && Fits(rev, spec.val, r.value[k].val)
    decreases spec, 0, |xs|
  {
    if |xs| == 0 then Ok([])
    else
      match LoadEntries(rev, c, spec, xs[..|xs| - 1])
      case Err(e) => Err(e)
      case Ok(acc) =>
        match LoadPair(rev, c, spec, xs[|xs| - 1])
        case Err(e) => Err(e)
        case Ok(en) => Ok(acc + [en])
  }

  /** One saved pair: `new_key.load(x[0])`, then `new_value.load(x[1])`. */
  function LoadPair(rev: Revision, c: Client, spec: FieldSpec, x: Value): (r: Result<Entry, Error>)
    requires spec.DictSpec?
    ensures r.Ok? ==> Fits(rev, spec.key, r.value.key) && Fits(rev, spec.val, r.value.val)
    decreases spec, 0, 0
  {
    match Construct(rev, spec.key)
    case Err(e) => Err(e)
    case Ok(freshKey) =>
      match Index(x, 0)
      case Err(e) => Err(e)
      case Ok(k) =>
        var lk := LoadF(rev, c, spec.key, freshKey, k);
        if lk.outcome.Fail? then Err(lk.outcome.error)
        else
          match Construct(rev, spec.val)
          case Err(e) => Err(e)
          case Ok(freshVal) =>
            match Index(x, 1)
            case Err(e) => Err(e)
            case Ok(v) =>
              var lv := LoadF(rev, c, spec.val, freshVal, v);
              if lv.outcome.Fail? then Err(lv.outcome.error) else Ok(Entry(lk.state, lv.state))
  }
}
