/**
 * Typed configuration fields: what kind of field a configuration slot holds
 * (`FieldSpec`, which stands for a `factory(...)` class), what state one
 * field object holds (`FieldState`), how a fresh field is built, and
 * `check_value` for every kind, in both revisions of the package
 * (`Current` = src/config/config_types, `Legacy` = config/config_types).
 */
module FieldTypes {
  import opened Wrappers
  import opened Errors
  import opened PyValues

  datatype Revision = Current | Legacy

  /** The kind of a field together with the arguments its factory passes to the constructor. */
  datatype FieldSpec =
    | IntSpec(min: Option<int>, max: Option<int>, values: Option<seq<int>>)
    | BoolSpec
    | ColorSpec
    | StrSpec
    /** `List(type_)`; the legacy constructor also takes `max_len`. */
    | ListSpec(elem: FieldSpec, maxLen: Option<Value>)
    | DictSpec(key: FieldSpec, val: FieldSpec)
    | GuildSpec
    | UserSpec
    | ChannelSpec
    | RoleSpec

  /** The attributes of one field object. Element fields of a `List` or
      `Dict` are owned by it alone, so they are held as values. */
  datatype FieldState =
    /** `self.value` of an `Int`, `Bool`, `Color`, `Str`, `Channel` or `Role`. */
    | Scalar(value: Value)
    /** `self.value` and the cached `guild_instance` / `user_instance`. */
    | Cached(id: Value, instance: Option<Entity>)
    /** `self.values` of a `List`, one element field per item. */
    | Items(elems: seq<FieldState>)
    /** `self.values` of a `Dict`: key field and value field per entry, in insertion order. */
    | Pairs(entries: seq<Entry>)
    /** `self.values is None` for a legacy `List` or any `Dict`. */
    | Unset

  datatype Entry = Entry(key: FieldState, val: FieldState)

  /** What the fields see of the bot client: `is_ready()` and the lookups
      `get_guild(id)` / `get_user(id)`. */
  datatype Client = Client(ready: bool, guilds: map<int, Entity>, users: map<int, Entity>)

  /** The field kinds each revision of the package defines: the legacy one has no chat-platform types. */
  predicate InRevision(rev: Revision, spec: FieldSpec) {
    match spec
    case ListSpec(elem, _) => InRevision(rev, elem)
    case DictSpec(k, v) => InRevision(rev, k) && InRevision(rev, v)
    case GuildSpec => rev == Current
    case UserSpec => rev == Current
    case ChannelSpec => rev == Current
    case RoleSpec => rev == Current
    case _ => true
  }

  /** `type_()` for the field class described by `spec`. */
  function Construct(rev: Revision, spec: FieldSpec): (r: Result<FieldState, Error>)
    ensures r.Ok? ==> Fits(rev, spec, r.value)
    ensures spec.IntSpec? ==> (r.Err? <==> spec.values.Some? && (spec.min.Some? || spec.max.Some?))
    ensures spec.ListSpec? ==> (r.Err? <==> rev == Current && spec.maxLen.Some?)
    ensures !spec.IntSpec? && !spec.ListSpec? ==> r.Ok?
  {
    match spec
    case IntSpec(mn, mx, vs) =>
      if vs.Some? && (mn.Some? || mx.Some?) then Err(ValueError) else Ok(Scalar(VNone))
    case BoolSpec => Ok(Scalar(VNone))
    case ColorSpec => Ok(Scalar(VNone))
    case StrSpec => Ok(Scalar(if rev == Current then VStr("") else VNone))
    case ListSpec(_, ml) =>
      if rev == Current then (if ml.Some? then Err(TypeError) else Ok(Items([]))) else Ok(Unset)
    case DictSpec(_, _) => Ok(Unset)
    case GuildSpec => Ok(Cached(VInt(0), None))
    case UserSpec => Ok(Cached(VInt(0), None))
    case ChannelSpec => Ok(Scalar(VNone))
    case RoleSpec => Ok(Scalar(VNone))
  }

  /** Every field class that `spec` names, elements included, can be built. */
  predicate WellFormed(rev: Revision, spec: FieldSpec) {
    && InRevision(rev, spec)
    && Construct(rev, spec).Ok?
    && match spec
       case ListSpec(elem, _) => WellFormed(rev, elem)
       case DictSpec(k, v) => WellFormed(rev, k) && WellFormed(rev, v)
       case _ => true
  }

  /** The state has the shape the field kind gives it. */
  predicate Fits(rev: Revision, spec: FieldSpec, st: FieldState) {
    match spec
    case GuildSpec => st.Cached?
    case UserSpec => st.Cached?
    case ListSpec(elem, _) =>
      || (rev == Legacy && st.Unset?)
      || (st.Items? && forall k :: 0 <= k < |st.elems| ==> Fits(rev, elem, st.elems[k]))
    case DictSpec(kt, vt) =>
      || st.Unset?
      || (st.Pairs? && forall k :: 0 <= k < |st.entries| ==>
            Fits(rev, kt, st.entries[k].key) && Fits(rev, vt, st.entries[k].val))
    case _ => st.Scalar?
  }

  // ---------------------------------------------------------------------
  // check_value
  // ---------------------------------------------------------------------

  /** `Int.check_value`: `int(value)` must not raise `ValueError` (a `TypeError`
      propagates); `int(value)` is then compared with the inclusive bounds, and
      the raw value is looked up among the allowed values. */
  function CheckInt(spec: FieldSpec, v: Value): (r: Result<bool, Error>)
    requires spec.IntSpec?
  {
    match IntOf(v)
    case Err(ValueError) => Ok(false)
    case Err(e) => Err(e)
    case Ok(n) =>
      if spec.min.Some? && n < spec.min.value then Ok(false)
      else if spec.max.Some? && n > spec.max.value then Ok(false)
      else if spec.values.Some? && !InInts(v, spec.values.value) then Ok(false)
      else Ok(true)
  }

  /** `Color.check_value`: after `int(value)`, the raw value is compared with
      the bounds, which raises `TypeError` for a string. */
  function CheckColor(v: Value): (r: Result<bool, Error>) {
    match IntOf(v)
    case Err(ValueError) => Ok(false)
    case Err(e) => Err(e)
    case Ok(_) =>
      if IsNumber(v) then Ok(0 <= NumberOf(v) <= 0xFF_FFFF) else Err(TypeError)
  }

  /** `check_value` of a field of kind `spec`. */
  function Check(rev: Revision, spec: FieldSpec, v: Value): Result<bool, Error>
    decreases spec, 1, 0
  {
    match spec
    case IntSpec(_, _, _) => CheckInt(spec, v)
    case ColorSpec => CheckColor(v)
    case ListSpec(elem, _) =>
      (match Construct(rev, elem)
       case Err(e) => Err(e)
       case Ok(_) =>
         if rev == Current then
           (match Iterate(v)
            case None => Ok(false)
            case Some(xs) => CheckItems(rev, spec, xs))
         else Check(rev, elem, v))
    case DictSpec(kt, vt) =>
      (match Construct(rev, kt)
       case Err(e) => Err(e)
       case Ok(_) =>
         match Construct(rev, vt)
         case Err(e) => Err(e)
         case Ok(_) =>
           if v.VDict? then CheckEntries(rev, spec, v.entries)
           else if rev == Legacy && (v.VList? || v.VTuple?) && |v.items| == 2 then
             CheckPair(rev, spec, v.items[0], v.items[1])
           else Ok(false))
    case _ => Ok(true)
  }

  /** The loop of the current `List.check_value`: the first item whose check
      fails or raises `TypeError` makes the answer `False`; any other
      exception propagates. */
  function CheckItems(rev: Revision, spec: FieldSpec, xs: seq<Value>): Result<bool, Error>
    requires spec.ListSpec?
    decreases spec, 0, |xs|
  {
    if |xs| == 0 then Ok(true)
    else
      match Check(rev, spec.elem, xs[0])
      case Err(TypeError) => Ok(false)
      case Err(e) => Err(e)
      case Ok(false) => Ok(false)
      case Ok(true) => CheckItems(rev, spec, xs[1..])
  }

  /** `o_key.check_value(k) and o_value.check_value(v)`. */
  function CheckPair(rev: Revision, spec: FieldSpec, k: Value, v: Value): Result<bool, Error>
    requires spec.DictSpec?
    decreases spec, 0, 0
  {
    match Check(rev, spec.key, k)
    case Err(e) => Err(e)
    case Ok(false) => Ok(false)
    case Ok(true) => Check(rev, spec.val, v)
  }

  /** The loop of `Dict.check_value` over the items of a dict. */
  function CheckEntries(rev: Revision, spec: FieldSpec, es: seq<Pair>): Result<bool, Error>
    requires spec.DictSpec?
    decreases spec, 0, |es|
  {
    if |es| == 0 then Ok(true)
    else
      match CheckPair(rev, spec, es[0].key, es[0].val)
      case Err(e) => Err(e)
      case Ok(false) => Ok(false)
      case Ok(true) => CheckEntries(rev, spec, es[1..])
  }

  // ---------------------------------------------------------------------
  // The client oracle
  // ---------------------------------------------------------------------

  /** `client.get_guild(id)` / `client.get_user(id)`. */
  function Lookup(c: Client, kind: EntityKind, id: Value): Option<Entity> {
    if !IsNumber(id) then None
    else if kind == GuildKind then (if NumberOf(id) in c.guilds then Some(c.guilds[NumberOf(id)]) else None)
    else if NumberOf(id) in c.users then Some(c.users[NumberOf(id)]) else None
  }

  /** `_update`: look the object up when the client is ready and nothing is
      cached; otherwise drop the cache. */
  function Update(c: Client, kind: EntityKind, id: Value, cached: Option<Entity>): Option<Entity> {
    if c.ready && cached.None? then Lookup(c, kind, id) else None
  }

  /** `value.id` when `value` is an object of the given kind, else `value` itself. */
  function Unwrap(v: Value, kind: EntityKind): Value {
    if v.VEntity? && v.entity.kind == kind then VInt(v.entity.id) else v
  }
}
