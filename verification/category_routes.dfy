/** The category route table and what a request to each category route produces end to end. */
module CategoryRoutes {
  import opened Wrappers
  import opened Jwt
  import opened UserEntity
  import opened Store
  import opened Http
  import opened Auth
  import opened CategoryController
  import opened Variants

  datatype Endpoint = ListCategories | CreateCategory | UpdateCategory | DeleteCategory

  const Staff: seq<UserType> := [Pro, Admin]

  const Routes: seq<Route<Endpoint>> := [
    Route(GET, "/categories/:id", ListCategories, []),
    Route(POST, "/category", CreateCategory, [LoginGuard(false), RoleGuard(Staff)]),
    Route(PUT, "/category/:id", UpdateCategory, [LoginGuard(false), RoleGuard(Staff)]),
    Route(DELETE, "/category/:id", DeleteCategory, [LoginGuard(false), RoleGuard(Staff)])
  ]

  datatype Request =
    | List(restaurantId: int)
    | Add(name: Option<string>, restaurantId: int)
    | Rename(id: int, name: Option<string>)
    | Remove(id: int)

  function EndpointOf(req: Request): Endpoint
  {
    match req
    case List(_) => ListCategories
    case Add(_, _) => CreateCategory
    case Rename(_, _) => UpdateCategory
    case Remove(_) => DeleteCategory
  }

  function Dispatch(v: Variant, s: Store, ctx: Ctx, req: Request): Outcome<CategoryBody>
  {
    match req
    case List(restaurantId) => Get(s, ctx, restaurantId)
    case Add(name, restaurantId) => Create(s, ctx, name, restaurantId)
    case Rename(id, name) => Update(s, ctx, id, name)
    case Remove(id) => Del(v, s, ctx, id)
  }

  /** A request carrying bearer token `authorization`: its route's guards, then its handler. */
  function Serve(v: Variant, s: Store, req: Request, authorization: Option<Token>, now: int): Outcome<CategoryBody>
  {
    match RunGuards(v, GuardsFor(Routes, EndpointOf(req)), s, authorization, now, Fresh)
    case Fault => NoReply(s)
    case Halt(status, ctx) => Send(status, ctx, s)
    case Next(ctx) => Dispatch(v, s, ctx, req)
  }

  /** The guard chain of each endpoint, read off the table. */
  lemma GuardTable()
    ensures GuardsFor(Routes, ListCategories) == []
    ensures GuardsFor(Routes, CreateCategory) == [LoginGuard(false), RoleGuard(Staff)]
    ensures GuardsFor(Routes, UpdateCategory) == [LoginGuard(false), RoleGuard(Staff)]
    ensures GuardsFor(Routes, DeleteCategory) == [LoginGuard(false), RoleGuard(Staff)]
  {
    var t1 := Routes[1..];
    var t2 := t1[1..];
    var t3 := t2[1..];
    assert GuardsFor(Routes, CreateCategory) == GuardsFor(t1, CreateCategory);
    assert GuardsFor(Routes, UpdateCategory) == GuardsFor(t1, UpdateCategory) == GuardsFor(t2, UpdateCategory);
    assert GuardsFor(Routes, DeleteCategory) == GuardsFor(t1, DeleteCategory) == GuardsFor(t2, DeleteCategory)
           == GuardsFor(t3, DeleteCategory);
  }

  /** Listing categories has no guards: any session token, valid or not, gives the same answer. */
  lemma ListIgnoresSession(v: Variant, s: Store, restaurantId: int, a: Option<Token>, b: Option<Token>, now: int)
    ensures Serve(v, s, List(restaurantId), a, now) == Serve(v, s, List(restaurantId), b, now)
  {
  }

  /** Creating, renaming and deleting need a token that authenticates a PRO or ADMIN: anyone else, a
      CLIENT included, is stopped with 401 by the guards and never sees the handler's 403; the store
      is untouched. A PRO or ADMIN reaches the handler as themself. As written, a genuine order token
      authenticates as the lowest-keyed user. */
  lemma ManagementGuarded(v: Variant, s: Store, req: Request, authorization: Option<Token>, now: int)
    requires !req.List?
    ensures var r := Serve(v, s, req, authorization, now);
      var u := Authenticated(v, s, authorization, now);
      && (u.None? || u.value.val.userType == Client ==> r.reply.status == Unauthorized && r.store == s)
      && (u.Some? && u.value.val.userType != Client ==> r == Dispatch(v, s, SessionCtx(v, s, authorization, now), req))
  {
    GuardTable();
    SessionThenRole(v, Staff, s, authorization, now);
  }

  /** A PRO who does not own the category's restaurant passes the guards and then gets the handler's
      403 on rename, and on delete once the handler can load the category's dishes; as written,
      delete answers 404. Nothing is written either way. */
  lemma NonOwnerProForbidden(v: Variant, s: Store, req: Request, authorization: Option<Token>, now: int)
    requires req.Rename? || req.Remove?
    requires Authenticated(v, s, authorization, now).Some?
    requires Authenticated(v, s, authorization, now).value.val.userType == Pro
    requires req.id in s.categories.rows
    requires OwnerOf(s, s.categories.rows[req.id]).Some?
    requires OwnerOf(s, s.categories.rows[req.id]) != Some(Authenticated(v, s, authorization, now).value.id)
    ensures req.Rename? || v == Corrected ==> Serve(v, s, req, authorization, now).reply.status == Forbidden
    ensures req.Remove? && v == AsWritten ==> Serve(v, s, req, authorization, now).reply.status == NotFound
    ensures Serve(v, s, req, authorization, now).store == s
  {
    ManagementGuarded(v, s, req, authorization, now);
  }

  /** An ADMIN may rename any existing category, owned by anyone or by nobody, and delete it once
      the handler can load the category's dishes; as written, delete answers 404 and deletes
      nothing. */
  lemma AdminManagesAnyCategory(v: Variant, s: Store, req: Request, authorization: Option<Token>, now: int)
    requires req.Rename? || req.Remove?
    requires Authenticated(v, s, authorization, now).Some?
    requires Authenticated(v, s, authorization, now).value.val.userType == Admin
    requires req.id in s.categories.rows
    ensures req.Rename? || v == Corrected ==> Serve(v, s, req, authorization, now).reply.status == Ok
    ensures req.Remove? && v == AsWritten ==>
      Serve(v, s, req, authorization, now).reply.status == NotFound && Serve(v, s, req, authorization, now).store == s
  {
    ManagementGuarded(v, s, req, authorization, now);
  }

  /** As written, anyone holding the order token of their own order can rename any category when
      the lowest-keyed user is an ADMIN; corrected, the token is refused with 401. */
  lemma OrderTokenRenamesAnyCategory(s: Store, t: Token, now: int, id: int, name: Option<string>)
    requires t.claims.OrderClaims? && Verify(Some(t), now).Some?
    requires First(s.users).Some? && First(s.users).value.val.userType == Admin
    requires id in s.categories.rows
    ensures Serve(AsWritten, s, Rename(id, name), Some(t), now).reply.status == Ok
    ensures Serve(Corrected, s, Rename(id, name), Some(t), now).reply.status == Unauthorized
  {
    OrderTokenAuthenticatesFirstUser(s, t, now);
    AdminManagesAnyCategory(AsWritten, s, Rename(id, name), Some(t), now);
    ManagementGuarded(Corrected, s, Rename(id, name), Some(t), now);
  }
}
