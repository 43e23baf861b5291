/**
 * What the chat-platform fields of the current revision promise: `Guild`
 * and `User` store an id and cache the object the client finds for it;
 * `Channel` and `Role` store their value as given. None of the four rejects
 * a value, which decides how their inverted `load` behaves.
 */
module DiscordLaws {
  import opened Wrappers
  import opened Errors
  import opened PyValues
  import opened FieldTypes
  import opened FieldOps

  predicate IsDiscordKind(spec: FieldSpec) {
    spec.GuildSpec? || spec.UserSpec? || spec.ChannelSpec? || spec.RoleSpec?
  }

  /** The kind of object a `Guild` or `User` field caches. */
  function KindOf(spec: FieldSpec): EntityKind
    requires spec.GuildSpec? || spec.UserSpec?
  {
    if spec.GuildSpec? then GuildKind else UserKind
  }

  /** A fresh `Guild` or `User` holds the id `0` and no object, and saves `0`;
      a fresh `Channel` or `Role` holds `None`. */
  lemma FreshDiscord(c: Client, spec: FieldSpec)
    requires IsDiscordKind(spec)
    ensures spec.GuildSpec? || spec.UserSpec? ==>
              && Construct(Current, spec) == Ok(Cached(VInt(0), None))
              && ToSaveF(Current, spec, Cached(VInt(0), None)) == Ok(VInt(0))
              && (!c.ready ==> GetF(Current, c, spec, Cached(VInt(0), None)) == Got(Ok(VInt(0)), Cached(VInt(0), None)))
    ensures spec.ChannelSpec? || spec.RoleSpec? ==>
              && Construct(Current, spec) == Ok(Scalar(VNone))
              && GetF(Current, c, spec, Scalar(VNone)).result == Ok(VNone)
              && ToSaveF(Current, spec, Scalar(VNone)) == Ok(VNone)
  {
  }

  /** `check_value` of the four kinds accepts every value. */
  lemma DiscordCheckAll(spec: FieldSpec, v: Value)
    requires IsDiscordKind(spec)
    ensures Check(Current, spec, v) == Ok(true)
  {
  }

  /** `load` raises `ValueError` exactly when `check_value` holds, which it
      always does: every `load` of the four kinds raises and changes nothing. */
  lemma DiscordLoadFails(c: Client, spec: FieldSpec, st: FieldState, v: Value)
    requires IsDiscordKind(spec) && Fits(Current, spec, st)
    ensures LoadF(Current, c, spec, st, v) == Loaded(Fail(ValueError), st)
  {
    DiscordCheckAll(spec, v);
  }

  /** `set` of a `Guild` or `User` stores the object's id when given an
      object of its kind, and the value itself otherwise; `to_save` then
      writes that id, or `0` for a false one. `set` never raises. */
  lemma SetStoresId(c: Client, spec: FieldSpec, st: FieldState, v: Value)
    requires (spec.GuildSpec? || spec.UserSpec?) && st.Cached?
    ensures SetF(Current, c, spec, st, v).Ok?
    ensures SetF(Current, c, spec, st, v).value.id == Unwrap(v, KindOf(spec))
    ensures v.VEntity? && v.entity.kind == KindOf(spec) ==>
              ToSaveF(Current, spec, SetF(Current, c, spec, st, v).value) == Ok(VInt(v.entity.id))
    ensures !Truthy(v) ==> ToSaveF(Current, spec, SetF(Current, c, spec, st, v).value) == Ok(VInt(0))
  {
  }

  /** `set` of a `Channel` or `Role` stores the value as given, which `get`
      and `to_save` return. */
  lemma SetPlain(c: Client, spec: FieldSpec, st: FieldState, v: Value)
    requires (spec.ChannelSpec? || spec.RoleSpec?) && st.Scalar?
    ensures SetF(Current, c, spec, st, v) == Ok(Scalar(v))
    ensures GetF(Current, c, spec, Scalar(v)) == Got(Ok(v), Scalar(v))
    ensures ToSaveF(Current, spec, Scalar(v)) == Ok(v)
  {
  }

  /** While the client is not ready, `get` of a `Guild` drops any cached
      object and returns the id; a `User` keeps showing an object it cached
      before. */
  lemma GetNotReady(c: Client, spec: FieldSpec, id: Value, cached: Option<Entity>)
    requires (spec.GuildSpec? || spec.UserSpec?) && !c.ready
    ensures spec.GuildSpec? ==> GetF(Current, c, spec, Cached(id, cached)) == Got(Ok(id), Cached(id, None))
    ensures spec.UserSpec? ==> GetF(Current, c, spec, Cached(id, cached)) == Got(Ok(Shown(id, cached)), Cached(id, cached))
  {
  }

  /** On a ready client that knows the guild, every `get` of a `Guild`
      flips its cache: with no cached guild it returns the guild and caches
      it, with one cached it returns the bare id and forgets the guild. */
  lemma GuildGetToggles(c: Client, id: Value, g: Entity, other: Entity)
    requires c.ready && Lookup(c, GuildKind, id) == Some(g)
    ensures GetF(Current, c, GuildSpec, Cached(id, None)) == Got(Ok(VEntity(g)), Cached(id, Some(g)))
    ensures GetF(Current, c, GuildSpec, Cached(id, Some(other))) == Got(Ok(id), Cached(id, None))
  {
  }

  /** Hence `get` right after `set` on a fresh `Guild` returns the id, not
      the guild its documentation promises: `set` already cached the guild. */
  lemma GuildGetAfterSet(c: Client, v: Value, g: Entity)
    requires c.ready && Lookup(c, GuildKind, Unwrap(v, GuildKind)) == Some(g)
    ensures SetF(Current, c, GuildSpec, Cached(VInt(0), None), v) == Ok(Cached(Unwrap(v, GuildKind), Some(g)))
    ensures GetF(Current, c, GuildSpec, Cached(Unwrap(v, GuildKind), Some(g))).result == Ok(Unwrap(v, GuildKind))
  {
  }

  /** A `User` looks its object up only while none is cached, so on a ready
      client that knows the user, `get` after any `set` returns the user, and
      keeps doing so. */
  lemma UserGetAfterSet(c: Client, st: FieldState, v: Value, u: Entity)
    requires st.Cached?
    requires c.ready && Lookup(c, UserKind, Unwrap(v, UserKind)) == Some(u)
    ensures SetF(Current, c, UserSpec, st, v).Ok?
    ensures GetF(Current, c, UserSpec, SetF(Current, c, UserSpec, st, v).value).result == Ok(VEntity(u))
    ensures GetF(Current, c, UserSpec, GetF(Current, c, UserSpec, SetF(Current, c, UserSpec, st, v).value).state)
            == Got(Ok(VEntity(u)), Cached(Unwrap(v, UserKind), Some(u)))
  {
  }

  // ---------------------------------------------------------------------
  // Corrected: `load` with its test the right way round

  /** `load` that raises only when `check_value` fails, and otherwise stores
      the value as the as-written `load` does after its test: `set`, and for a
      `Guild` or `User` one more `_update`. */
  function LoadChecked(c: Client, spec: FieldSpec, st: FieldState, v: Value): (l: Loaded)
    requires IsDiscordKind(spec) && Fits(Current, spec, st)
    ensures Fits(Current, spec, l.state)
  {
    if Check(Current, spec, v) != Ok(true) then Loaded(Fail(ValueError), st)
    else if spec.GuildSpec? || spec.UserSpec? then
      var s := SetCached(c, KindOf(spec), st, v);
      Loaded(Pass, Cached(s.id, Update(c, KindOf(spec), s.id, s.instance)))
    else Loaded(Pass, Scalar(v))
  }

  /** With the test un-inverted, `load(to_save())` on a fresh field passes
      and restores what the field saves: a `Channel` or `Role` gets its value
      back, and a `Guild` or `User` its id, so a second `to_save` writes the
      same value as the first. That holds for every state `set` leaves: the
      id it stores is never an object of the field's own kind. */
  lemma LoadCheckedRestores(c: Client, spec: FieldSpec, st: FieldState)
    requires IsDiscordKind(spec) && Fits(Current, spec, st)
    requires spec.GuildSpec? || spec.UserSpec? ==> !(st.id.VEntity? && st.id.entity.kind == KindOf(spec))
    ensures ToSaveF(Current, spec, st).Ok?
    ensures LoadChecked(c, spec, Construct(Current, spec).value, ToSaveF(Current, spec, st).value).outcome == Pass
    ensures spec.ChannelSpec? || spec.RoleSpec? ==>
              LoadChecked(c, spec, Construct(Current, spec).value, ToSaveF(Current, spec, st).value).state == st
    ensures ToSaveF(Current, spec, LoadChecked(c, spec, Construct(Current, spec).value, ToSaveF(Current, spec, st).value).state)
            == ToSaveF(Current, spec, st)
  {
    DiscordCheckAll(spec, ToSaveF(Current, spec, st).value);
    if spec.GuildSpec? || spec.UserSpec? {
      var saved := ToSaveF(Current, spec, st).value;
      assert Unwrap(saved, KindOf(spec)) == saved;
    }
  }

  // ---------------------------------------------------------------------
  // Corrected: a `Guild` looks its object up only while none is cached

  /** `get` of a `Guild` that runs `_update` only when no guild is cached,
      as `User.get` does. */
  function GetGuildOnce(c: Client, st: FieldState): (g: Got)
    requires st.Cached?
    ensures g.state.Cached?
  {
    var now := if st.instance.None? then Update(c, GuildKind, st.id, st.instance) else st.instance;
    Got(Ok(Shown(st.id, now)), Cached(st.id, now))
  }

  /** With that `get`, a ready client that knows the guild makes every `get`
      after `set` return the guild, as the documentation promises, and keep
      the guild cached. */
  lemma GuildOnceAfterSet(c: Client, v: Value, g: Entity)
    requires c.ready && Lookup(c, GuildKind, Unwrap(v, GuildKind)) == Some(g)
    requires SetF(Current, c, GuildSpec, Cached(VInt(0), None), v).Ok?
    ensures GetGuildOnce(c, SetF(Current, c, GuildSpec, Cached(VInt(0), None), v).value)
            == Got(Ok(VEntity(g)), Cached(Unwrap(v, GuildKind), Some(g)))
    ensures GetGuildOnce(c, Cached(Unwrap(v, GuildKind), Some(g))) == Got(Ok(VEntity(g)), Cached(Unwrap(v, GuildKind), Some(g)))
  {
  }
}
