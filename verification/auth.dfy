/** The session and role guards that run before a handler, and their composition
    into the guard chains of the route tables. */
module Auth {
  import opened Wrappers
  import opened Jwt
  import opened UserEntity
  import opened Store
  import opened Http
  import opened Variants

  /** A middleware of a route: `checkLogin(passthrough)` or `checkRole(roles)`. */
  datatype Guard = LoginGuard(passthrough: bool) | RoleGuard(roles: seq<UserType>)

  /** What a guard does with a request: call `next()` with the updated context,
      answer with a status itself, or throw outside its `try`. */
  datatype Gate = Next(ctx: Ctx) | Halt(status: Status, ctx: Ctx) | Fault

  /** A row of a route table. */
  datatype Route<E> = Route(verb: Method, path: string, endpoint: E, guards: seq<Guard>)

  /** `findOneOrFail(payload.userId)`. A session claim set names its user, who may be gone. An order
      claim set has no `userId`: as written the lookup then loads the lowest-keyed user; corrected,
      it finds nobody. */
  function SessionUser(v: Variant, s: Store, claims: Claims): (r: Option<Row<User>>)
    ensures claims.SessionClaims? ==> r == Find(s.users, claims.userId)
    ensures claims.OrderClaims? && v == AsWritten ==> r == First(s.users)
    ensures claims.OrderClaims? && v == Corrected ==> r.None?
  {
    Load(v, s.users, SessionUserId(claims))
  }

  /** The user a presented bearer token authenticates: it must verify, and its claims must load a user. */
  function Authenticated(v: Variant, s: Store, authorization: Option<Token>, now: int): (r: Option<Row<User>>)
    ensures r.Some? <==> Verify(authorization, now).Some? && SessionUser(v, s, Verify(authorization, now).value).Some?
    ensures r.Some? ==> r == SessionUser(v, s, Verify(authorization, now).value)
  {
    match Verify(authorization, now)
    case None => None
    case Some(claims) => SessionUser(v, s, claims)
  }

  /** A session token issued to a user who is still stored authenticates exactly that user, in
      either variant, until it expires, and nobody after. */
  lemma SessionTokenAuthenticates(v: Variant, s: Store, id: int, issuedAt: int, now: int)
    requires id in s.users.rows
    ensures Authenticated(v, s, Some(SessionToken(id, s.users.rows[id], issuedAt)), now)
            == (if now < issuedAt + SESSION_LIFETIME then Some(Row(id, s.users.rows[id])) else None)
  {
  }

  /** Corrected, only a session token authenticates, and only as the user it names. */
  lemma OnlySessionTokensAuthenticate(s: Store, authorization: Option<Token>, now: int)
    ensures var u := Authenticated(Corrected, s, authorization, now);
      u.Some? ==> && Verify(authorization, now).value.SessionClaims?
                  && u.value.id == Verify(authorization, now).value.userId
  {
  }

  /** As written, a genuine, unexpired order token, which `POST /order` hands to any caller,
      authenticates as the lowest-keyed user whenever there is one. */
  lemma OrderTokenAuthenticatesFirstUser(s: Store, t: Token, now: int)
    requires t.claims.OrderClaims? && Verify(Some(t), now).Some?
    ensures Authenticated(AsWritten, s, Some(t), now) == First(s.users)
    ensures Authenticated(Corrected, s, Some(t), now).None?
  {
  }

  /** `checkLogin(passthrough)`. Verification and the user lookup share one `try`, so a
      token naming a deleted user fails like an invalid one; the payload, though, has
      already been recorded by then. */
  function CheckLogin(v: Variant, passthrough: bool, s: Store, authorization: Option<Token>, now: int, ctx: Ctx): (g: Gate)
    ensures !g.Fault?
    ensures g.Next? <==> passthrough || Authenticated(v, s, authorization, now).Some?
    ensures g.Halt? ==> g.status == Unauthorized && g.ctx.user == ctx.user
    ensures g.Next? ==> g.ctx.user == Authenticated(v, s, authorization, now)
    ensures Authenticated(v, s, authorization, now).Some? ==>
      var u := Authenticated(v, s, authorization, now).value;
      g.ctx.authorization == Some(SessionToken(u.id, u.val, now))
    ensures Authenticated(v, s, authorization, now).None? ==> g.ctx.authorization == ctx.authorization
    ensures g.ctx.payload == (if Verify(authorization, now).Some? then Verify(authorization, now) else ctx.payload)
    ensures g.ctx.role == ctx.role
  {
    match Verify(authorization, now)
    case None => Reject(passthrough, ctx)
    case Some(claims) =>
      var withPayload := ctx.(payload := Some(claims));
      match SessionUser(v, s, claims)
      case None => Reject(passthrough, withPayload)
      case Some(u) => Next(withPayload.(user := Some(u), authorization := Some(SessionToken(u.id, u.val, now))))
  }

  /** The `catch` of `checkLogin`: continue anonymously, or answer 401. */
  function Reject(passthrough: bool, ctx: Ctx): Gate
  {
    if passthrough then Next(ctx.(user := None)) else Halt(Unauthorized, ctx)
  }

  /** `checkRole(roles)`. It reads `res.locals.jwtPayload.userId` before its `try`, so with no
      recorded payload it throws; it looks the user up afresh and admits exactly the listed roles. */
  function CheckRole(v: Variant, roles: seq<UserType>, s: Store, ctx: Ctx): (g: Gate)
    ensures g.Fault? <==> ctx.payload.None?
    ensures g.Next? <==> ctx.payload.Some? && SessionUser(v, s, ctx.payload.value).Some?
                         && SessionUser(v, s, ctx.payload.value).value.val.userType in roles
    ensures g.Next? ==> g.ctx == ctx.(role := Some(SessionUser(v, s, ctx.payload.value).value.val.userType))
    ensures g.Halt? ==> g.status == Unauthorized && g.ctx == ctx
  {
    match ctx.payload
    case None => Fault
    case Some(claims) =>
      match SessionUser(v, s, claims)
      case None => Halt(Unauthorized, ctx)
      case Some(u) =>
        if u.val.userType in roles then Next(ctx.(role := Some(u.val.userType)))
        else Halt(Unauthorized, ctx)
  }

  function Apply(v: Variant, g: Guard, s: Store, authorization: Option<Token>, now: int, ctx: Ctx): Gate
  {
    match g
    case LoginGuard(passthrough) => CheckLogin(v, passthrough, s, authorization, now, ctx)
    case RoleGuard(roles) => CheckRole(v, roles, s, ctx)
  }

  /** Runs a route's middlewares in order; the first that does not call `next()` ends the chain. */
  function RunGuards(v: Variant, guards: seq<Guard>, s: Store, authorization: Option<Token>, now: int, ctx: Ctx): Gate
    decreases |guards|
  {
    if |guards| == 0 then Next(ctx)
    else
      match Apply(v, guards[0], s, authorization, now, ctx)
      case Next(c) => RunGuards(v, guards[1..], s, authorization, now, c)
      case stop => stop
  }

  /** The guards of the first route serving `e`; none when the table has no such route. */
  function GuardsFor<E(==)>(table: seq<Route<E>>, e: E): seq<Guard>
    decreases |table|
  {
    if |table| == 0 then []
    else if table[0].endpoint == e then table[0].guards
    else GuardsFor(table[1..], e)
  }

  /** The context a handler behind `[checkLogin(), checkRole(roles)]` runs with: the verified
      payload, the authenticated user and their role, and a refreshed session token. */
  function SessionCtx(v: Variant, s: Store, authorization: Option<Token>, now: int): Ctx
    requires Authenticated(v, s, authorization, now).Some?
  {
    var u := Authenticated(v, s, authorization, now).value;
    Ctx(Verify(authorization, now), Some(u), Some(u.val.userType), Some(SessionToken(u.id, u.val, now)))
  }

  /** `[checkLogin(), checkRole(roles)]` on a fresh request lets it through exactly when the token
      authenticates a user whose role is listed, recording that user and role; otherwise it
      answers 401, and never throws. Both guards load the user from the same payload, so they
      agree on who it is, in either variant. */
  lemma SessionThenRole(v: Variant, roles: seq<UserType>, s: Store, authorization: Option<Token>, now: int)
    ensures var g := RunGuards(v, [LoginGuard(false), RoleGuard(roles)], s, authorization, now, Fresh);
      var u := Authenticated(v, s, authorization, now);
      && !g.Fault?
      && (g.Next? <==> u.Some? && u.value.val.userType in roles)
      && (g.Next? ==> g.ctx == SessionCtx(v, s, authorization, now))
      && (g.Halt? ==> g.status == Unauthorized)
  {
    var chain := [LoginGuard(false), RoleGuard(roles)];
    assert chain[1..] == [RoleGuard(roles)];
    assert [RoleGuard(roles)][1..] == [];
    var first := CheckLogin(v, false, s, authorization, now, Fresh);
    if first.Next? {
      assert first.ctx.payload == Verify(authorization, now);
      var second := CheckRole(v, roles, s, first.ctx);
      assert RunGuards(v, chain, s, authorization, now, Fresh) == RunGuards(v, [RoleGuard(roles)], s, authorization, now, first.ctx);
      if second.Next? {
        assert RunGuards(v, [RoleGuard(roles)], s, authorization, now, first.ctx) == Next(second.ctx);
      }
    }
  }

  /** As written, a genuine, unexpired order token passes `[checkLogin(), checkRole(roles)]` as the
      lowest-keyed user whenever that user's role is listed, and the reply carries a fresh
      seven-day session token for that user: anyone who placed an order can act as, say, an ADMIN. */
  lemma OrderTokenPassesAsFirstUser(roles: seq<UserType>, s: Store, t: Token, now: int)
    requires t.claims.OrderClaims? && Verify(Some(t), now).Some?
    requires First(s.users).Some? && First(s.users).value.val.userType in roles
    ensures var g := RunGuards(AsWritten, [LoginGuard(false), RoleGuard(roles)], s, Some(t), now, Fresh);
      var u := First(s.users).value;
      && g.Next?
      && g.ctx.user == Some(u)
      && g.ctx.role == Some(u.val.userType)
      && g.ctx.authorization == Some(SessionToken(u.id, u.val, now))
  {
    OrderTokenAuthenticatesFirstUser(s, t, now);
    SessionThenRole(AsWritten, roles, s, Some(t), now);
  }

  /** Corrected, an order token never passes `[checkLogin(), checkRole(roles)]`: it is answered 401. */
  lemma CorrectedRefusesOrderTokens(roles: seq<UserType>, s: Store, t: Token, now: int)
    requires t.claims.OrderClaims?
    ensures var g := RunGuards(Corrected, [LoginGuard(false), RoleGuard(roles)], s, Some(t), now, Fresh);
      g.Halt? && g.status == Unauthorized
  {
    SessionThenRole(Corrected, roles, s, Some(t), now);
  }

  /** `[checkLogin(true), checkRole(roles)]` on a request without a verifiable token: the role
      guard reads a payload nobody recorded and throws, so no response is sent at all. */
  lemma PassthroughThenRoleFaults(v: Variant, roles: seq<UserType>, s: Store, authorization: Option<Token>, now: int)
    requires Verify(authorization, now).None?
    ensures RunGuards(v, [LoginGuard(true), RoleGuard(roles)], s, authorization, now, Fresh) == Fault
  {
    assert [LoginGuard(true), RoleGuard(roles)][1..] == [RoleGuard(roles)];
  }

  /** A genuine, unexpired token whose claims load no user (a session token naming a deleted user;
      corrected, also any order token) gets the same decision and the same bound user as presenting
      no token at all; only the recorded payload differs. */
  lemma DeletedUserLikeNoToken(v: Variant, passthrough: bool, s: Store, t: Token, now: int, ctx: Ctx)
    requires Verify(Some(t), now).Some?
    requires SessionUser(v, s, t.claims).None?
    ensures var withToken := CheckLogin(v, passthrough, s, Some(t), now, ctx);
      var without := CheckLogin(v, passthrough, s, None, now, ctx);
      && withToken.Next? == without.Next?
      && withToken.Halt? == without.Halt?
      && withToken.ctx == without.ctx.(payload := Some(t.claims))
  {
  }
}
