/**
 * The permission test every bot module inherits (modules/base/Base.py,
 * `auth`). The module's settings are the values its configuration returns:
 * "authorized_users" is a `List` of `User` fields and "authorized_roles" a
 * `List` of `Role` fields, so the lists `auth` searches hold whatever those
 * fields' `get` gives, which is a user object once the client is ready.
 */
module Authorisation {
  import opened Wrappers
  import opened PyValues
  import opened FieldTypes
  import opened FieldOps
  import ListLaws

  /** A guild, as far as `auth` looks at it: each member's id mapped to the
      ids of the member's roles. */
  datatype Guild = Guild(members: map<int, seq<int>>)

  /** What `auth` reads besides its arguments: the values of the module's
      "auth_everyone", "authorized_users" and "authorized_roles" settings,
      the bot's "admin_users" and "admin_roles", and the client's guilds. */
  datatype AuthContext = AuthContext(
    everyone: Value,
    authorizedUsers: seq<Value>, adminUsers: seq<Value>,
    authorizedRoles: seq<Value>, adminRoles: seq<Value>,
    guilds: seq<Guild>)

  /** `x in xs`: some item equals `x`. */
  predicate IsIn(x: Value, xs: seq<Value>) {
    exists j :: 0 <= j < |xs| && PyEq(x, xs[j])
  }

  function UsersOf(ctx: AuthContext, userList: Option<seq<Value>>): seq<Value> {
    if userList.Some? then userList.value else ctx.authorizedUsers + ctx.adminUsers
  }

  function RolesOf(ctx: AuthContext, roleList: Option<seq<Value>>): seq<Value> {
    if roleList.Some? then roleList.value else ctx.authorizedRoles + ctx.adminRoles
  }

  function GuildsOf(ctx: AuthContext, guild: Option<Guild>): seq<Guild> {
    if guild.Some? then [guild.value] else ctx.guilds
  }

  /** The user is a member of `g`, and one of `roles` equals the id of one
      of the member's roles there. */
  predicate HoldsRole(g: Guild, user: int, roles: seq<Value>) {
    user in g.members && exists j :: 0 <= j < |roles| && InInts(roles[j], g.members[user])
  }

  /** The decision `auth` makes, stated directly: everyone is allowed, or
      the user's id is in the user list, or some searched guild gives the
      user a listed role. */
  predicate Authorized(ctx: AuthContext, user: int, roleList: Option<seq<Value>>,
                       userList: Option<seq<Value>>, guild: Option<Guild>) {
    || Truthy(ctx.everyone)
    || IsIn(VInt(user), UsersOf(ctx, userList))
    || exists k :: 0 <= k < |GuildsOf(ctx, guild)| && HoldsRole(GuildsOf(ctx, guild)[k], user, RolesOf(ctx, roleList))
  }

  /** `auth(user, role_list, user_list, guild)` for the user with id `user`,
      with its loops over the guilds and, for a guild the user belongs to,
      over the roles. */
  method Auth(ctx: AuthContext, user: int, roleList: Option<seq<Value>>,
              userList: Option<seq<Value>>, guild: Option<Guild>) returns (r: bool)
    ensures r <==> Authorized(ctx, user, roleList, userList, guild)
  {
    if Truthy(ctx.everyone) {
      return true;
    }
    var users := UsersOf(ctx, userList);
    if IsIn(VInt(user), users) {
      return true;
    }
    var roles := RolesOf(ctx, roleList);
    var guilds := GuildsOf(ctx, guild);
    for k := 0 to |guilds|
      invariant forall j :: 0 <= j < k ==> !HoldsRole(guilds[j], user, roles)
    {
      if user in guilds[k].members {
        var held := guilds[k].members[user];
        for m := 0 to |roles|
          invariant forall j :: 0 <= j < m ==> !InInts(roles[j], held)
        {
          if InInts(roles[m], held) {
            assert HoldsRole(guilds[k], user, roles);
            return true;
          }
        }
      }
    }
    return false;
  }

  // ---------------------------------------------------------------------
  // Users listed by id are refused once the client is ready

  /** The kind of the "authorized_users" setting. */
  const UsersSpec: FieldSpec := ListSpec(UserSpec, None)

  /** A user id stored in a `User` field: the field on a ready client that
      knows the user caches it, and `get` then returns the user object. */
  lemma CachedUserShown(c: Client, u: int)
    requires c.ready && u in c.users
    ensures SetFresh(Current, c, UserSpec, VInt(u)) == Ok(Cached(VInt(u), Some(c.users[u])))
    ensures GetF(Current, c, UserSpec, Cached(VInt(u), Some(c.users[u]))).result == Ok(VEntity(c.users[u]))
  {
  }

  /** Setting "authorized_users" to `[u]` on a ready client that knows `u`
      makes the setting read back as `[<User u>]`. Its id is then not `in`
      the user list, so a user holding no listed role, with no admin entry
      and everyone not allowed, is refused although listed. */
  lemma ListedUserRefused(c: Client, u: int, ctx: AuthContext)
    requires c.ready && u in c.users
    requires ctx.authorizedUsers == [VEntity(c.users[u])]
    requires !Truthy(ctx.everyone) && ctx.adminUsers == [] && ctx.guilds == []
    ensures SetF(Current, c, UsersSpec, Items([]), VList([VInt(u)])) == Ok(Items([Cached(VInt(u), Some(c.users[u]))]))
    ensures GetF(Current, c, UsersSpec, Items([Cached(VInt(u), Some(c.users[u]))])).result
            == Ok(VList(ctx.authorizedUsers))
    ensures !Authorized(ctx, u, None, None, None)
  {
    ListedUserSet(c, u);
    ListedUserGet(c, u);
    assert UsersOf(ctx, None) == [VEntity(c.users[u])];
  }

  /** `set([u])` builds one cached `User` field. */
  lemma ListedUserSet(c: Client, u: int)
    requires c.ready && u in c.users
    ensures SetF(Current, c, UsersSpec, Items([]), VList([VInt(u)])) == Ok(Items([Cached(VInt(u), Some(c.users[u]))]))
  {
    CachedUserShown(c, u);
    ListLaws.CheckItemsAll(Current, UsersSpec, [VInt(u)]);
    ListLaws.SetItemsOk(Current, c, UsersSpec, [VInt(u)]);
    ListLaws.SetItemsValues(Current, c, UsersSpec, [VInt(u)]);
    assert SetItems(Current, c, UsersSpec, [VInt(u)]).value == [Cached(VInt(u), Some(c.users[u]))];
    assert Check(Current, UsersSpec, VList([VInt(u)])) == Ok(true);
  }

  /** `get` of that field list gives the user object. */
  lemma ListedUserGet(c: Client, u: int)
    requires c.ready && u in c.users
    ensures GetF(Current, c, UsersSpec, Items([Cached(VInt(u), Some(c.users[u]))])).result
            == Ok(VList([VEntity(c.users[u])]))
  {
    CachedUserShown(c, u);
    var es := [Cached(VInt(u), Some(c.users[u]))];
    GetUsersItems(c, es);
    assert GetItems(Current, c, UsersSpec, es).result.value == [VEntity(c.users[u])];
  }

  // ---------------------------------------------------------------------
  // Corrected: users compared by id

  /** The client's lookups return the object with the id asked for. */
  predicate Consistent(c: Client) {
    forall n :: n in c.users ==> c.users[n].id == n
  }

  /** `x.id` for a user object, the value itself otherwise. */
  function IdOf(v: Value): Value {
    if v.VEntity? then VInt(v.entity.id) else v
  }

  /** `user.id in [getattr(x, "id", x) for x in user_list]`. */
  predicate IdIsIn(user: int, xs: seq<Value>) {
    exists j :: 0 <= j < |xs| && PyEq(VInt(user), IdOf(xs[j]))
  }

  /** `auth` with the user list compared by id, which the settings'
      documentation (a list of ids) and the `User` field (an id or an
      object) call for. */
  predicate AuthorizedById(ctx: AuthContext, user: int, roleList: Option<seq<Value>>,
                           userList: Option<seq<Value>>, guild: Option<Guild>) {
    || Truthy(ctx.everyone)
    || IdIsIn(user, UsersOf(ctx, userList))
    || exists k :: 0 <= k < |GuildsOf(ctx, guild)| && HoldsRole(GuildsOf(ctx, guild)[k], user, RolesOf(ctx, roleList))
  }

  /** Comparing by id never refuses a user that the as-written test admits. */
  lemma ByIdAdmitsMore(ctx: AuthContext, user: int, roleList: Option<seq<Value>>,
                       userList: Option<seq<Value>>, guild: Option<Guild>)
    requires Authorized(ctx, user, roleList, userList, guild)
    ensures AuthorizedById(ctx, user, roleList, userList, guild)
  {
    if IsIn(VInt(user), UsersOf(ctx, userList)) {
      var xs := UsersOf(ctx, userList);
      var j :| 0 <= j < |xs| && PyEq(VInt(user), xs[j]);
      assert PyEq(VInt(user), IdOf(xs[j]));
    }
  }

  /** A `User` field set to an id reads back as that id or as the object
      with that id, whatever the client's state. */
  lemma UserElemId(c: Client, u: int)
    requires Consistent(c)
    ensures SetFresh(Current, c, UserSpec, VInt(u)).Ok?
    ensures GetF(Current, c, UserSpec, SetFresh(Current, c, UserSpec, VInt(u)).value).result.Ok?
    ensures IdOf(GetF(Current, c, UserSpec, SetFresh(Current, c, UserSpec, VInt(u)).value).result.value) == VInt(u)
  {
    if c.ready && u in c.users {
      assert c.users[u].id == u;
    }
  }

  /** The elements `set` builds from a list of ids, one `User` field per id. */
  lemma SetUsersItems(c: Client, ids: seq<Value>)
    requires Consistent(c) && forall j :: 0 <= j < |ids| ==> ids[j].VInt?
    ensures SetF(Current, c, UsersSpec, Items([]), VList(ids)).Ok?
    ensures SetF(Current, c, UsersSpec, Items([]), VList(ids)) == Ok(Items(SetItems(Current, c, UsersSpec, ids).value))
    ensures forall j :: 0 <= j < |ids| ==>
              SetItems(Current, c, UsersSpec, ids).value[j] == SetFresh(Current, c, UserSpec, ids[j]).value
  {
    forall j | 0 <= j < |ids|
      ensures SetFresh(Current, c, UserSpec, ids[j]).Ok?
      ensures Check(Current, UserSpec, ids[j]) == Ok(true)
    {
      UserElemId(c, ids[j].i);
    }
    ListLaws.CheckItemsAll(Current, UsersSpec, ids);
    ListLaws.SetItemsOk(Current, c, UsersSpec, ids);
    ListLaws.SetItemsValues(Current, c, UsersSpec, ids);
  }

  /** Reading back a list of `User` fields asks each in order; none raises. */
  lemma GetUsersItems(c: Client, es: seq<FieldState>)
    requires forall j :: 0 <= j < |es| ==> es[j].Cached?
    ensures GetItems(Current, c, UsersSpec, es).result.Ok?
    ensures GetF(Current, c, UsersSpec, Items(es)).result == Ok(VList(GetItems(Current, c, UsersSpec, es).result.value))
    ensures forall j :: 0 <= j < |es| ==>
              GetItems(Current, c, UsersSpec, es).result.value[j] == GetF(Current, c, UserSpec, es[j]).result.value
  {
    ListLaws.GetItemsOk(Current, c, UsersSpec, es);
    ListLaws.GetItemsValues(Current, c, UsersSpec, es);
  }

  /** Setting "authorized_users" to a list of ids and reading it back gives,
      on a ready client or not, one value per id whose id is that id. */
  lemma UsersReadBack(c: Client, ids: seq<Value>)
    requires Consistent(c) && forall j :: 0 <= j < |ids| ==> ids[j].VInt?
    ensures SetF(Current, c, UsersSpec, Items([]), VList(ids)).Ok?
    ensures GetF(Current, c, UsersSpec, SetF(Current, c, UsersSpec, Items([]), VList(ids)).value).result.Ok?
    ensures GetF(Current, c, UsersSpec, SetF(Current, c, UsersSpec, Items([]), VList(ids)).value).result.value.VList?
    ensures |GetF(Current, c, UsersSpec, SetF(Current, c, UsersSpec, Items([]), VList(ids)).value).result.value.items| == |ids|
    ensures forall j :: 0 <= j < |ids| ==>
              IdOf(GetF(Current, c, UsersSpec, SetF(Current, c, UsersSpec, Items([]), VList(ids)).value).result.value.items[j]) == ids[j]
  {
    SetUsersItems(c, ids);
    var es := SetItems(Current, c, UsersSpec, ids).value;
    GetUsersItems(c, es);
    forall j | 0 <= j < |ids|
      ensures IdOf(GetItems(Current, c, UsersSpec, es).result.value[j]) == ids[j]
    {
      UserElemId(c, ids[j].i);
    }
  }

  /** Hence comparing by id admits every user "authorized_users" lists. */
  lemma ListedUserAdmitted(c: Client, ids: seq<Value>, ctx: AuthContext, k: nat)
    requires Consistent(c) && k < |ids|
    requires forall j :: 0 <= j < |ids| ==> ids[j].VInt?
    requires SetF(Current, c, UsersSpec, Items([]), VList(ids)).Ok?
    requires GetF(Current, c, UsersSpec, SetF(Current, c, UsersSpec, Items([]), VList(ids)).value).result.Ok?
    requires ctx.authorizedUsers == GetF(Current, c, UsersSpec, SetF(Current, c, UsersSpec, Items([]), VList(ids)).value).result.value.items
    ensures AuthorizedById(ctx, ids[k].i, None, None, None)
  {
    UsersReadBack(c, ids);
    assert UsersOf(ctx, None)[k] == ctx.authorizedUsers[k];
    assert PyEq(VInt(ids[k].i), IdOf(UsersOf(ctx, None)[k]));
  }
}
