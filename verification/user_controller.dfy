/** The user handlers: login, registration, reading one's own profile, and deleting one's account. */
module UserController {
  import opened Wrappers
  import opened Jwt
  import opened UserEntity
  import opened Store
  import opened Http
  import opened Variants
  import Auth

  /** `LoginReturn`. `userType` is the user's type, except that registration echoes the type as
      submitted, which may be absent. */
  datatype Profile = Profile(token: Token, firstname: string, lastname: string, email: string, userType: Option<UserType>)

  datatype UserBody = ProfileBody(profile: Profile) | Message(text: string)

  /** `value || ""` on an optional string. */
  function OrEmpty(value: Option<string>): string
  {
    match value
    case Some(v) => v
    case None => ""
  }

  /** The query `WHERE user.email = :email`: the first user with that email, if any. */
  function FindByEmail(s: Store, email: string): (r: Option<Row<User>>)
    ensures r.None? <==> forall k :: k in s.users.rows ==> s.users.rows[k].email != email
    ensures r.Some? ==> r.value.id in s.users.rows && r.value.val == s.users.rows[r.value.id] && r.value.val.email == email
  {
    var matches := Where(s.users, (u: Row<User>) => u.val.email == email);
    assert forall k :: k in s.users.rows && s.users.rows[k].email == email ==> Row(k, s.users.rows[k]) in matches;
    if |matches| == 0 then None
    else
      assert matches[0] in matches;
      Some(matches[0])
  }

  /** No two users share an email (the column is unique). */
  ghost predicate UniqueEmails(s: Store)
  {
    forall a, b :: a in s.users.rows && b in s.users.rows && s.users.rows[a].email == s.users.rows[b].email ==> a == b
  }

  /** `login`. An unknown (or missing) email makes `getOneOrFail` throw and a missing password makes
      `compareSync` throw: both answer 500, not 404. A wrong password answers 401 with a message and
      no token. Otherwise the reply carries a fresh session token in the body and in the
      `authorization` header. Nothing is written. */
  function Login(s: Store, ctx: Ctx, email: Option<string>, password: Option<string>, now: int): (r: Outcome<UserBody>)
    ensures r.store == s
    ensures r.reply.status in {Ok, Unauthorized, InternalServerError}
    ensures r.reply.status == InternalServerError <==> email.None? || FindByEmail(s, email.value).None? || password.None?
    ensures r.reply.status == Unauthorized <==>
      email.Some? && FindByEmail(s, email.value).Some? && password.Some?
      && !CheckPassword(FindByEmail(s, email.value).value.val, password.value)
    ensures r.reply.status == Unauthorized ==>
      r.reply.body == Some(Message("Invalid Email or Password")) && r.reply.authorization == ctx.authorization
    ensures r.reply.status == Ok ==>
      var u := FindByEmail(s, email.value).value;
      var token := SessionToken(u.id, u.val, now);
      && CheckPassword(u.val, password.value)
      && r.reply.authorization == Some(token)
      && r.reply.body == Some(ProfileBody(Profile(token, OrEmpty(u.val.firstname), OrEmpty(u.val.lastname),
                                                  email.value, Some(u.val.userType))))
  {
    match email
    case None => Send(InternalServerError, ctx, s)
    case Some(e) =>
      match FindByEmail(s, e)
      case None => Send(InternalServerError, ctx, s)
      case Some(u) =>
        match password
        case None => Send(InternalServerError, ctx, s)
        case Some(p) =>
          if !CheckPassword(u.val, p) then
            Outcome(Reply(Unauthorized, Some(Message("Invalid Email or Password")), ctx.authorization), s)
          else
            var token := SessionToken(u.id, u.val, now);
            Outcome(Reply(Ok, Some(ProfileBody(Profile(token, OrEmpty(u.val.firstname), OrEmpty(u.val.lastname),
                                                       e, Some(u.val.userType)))), Some(token)), s)
  }

  /** `register`. A missing password makes hashing throw, and a missing email, first or last name
      violates a NOT NULL column: each answers 409 with only the status phrase. A taken email
      answers 409 with a message.
      Otherwise the user is saved under the next key with the password hashed and the type as
      requested (CLIENT by default), and the reply echoes the submitted fields with a session token
      for the new user. */
  function Register(s: Store, ctx: Ctx, email: Option<string>, password: Option<string>,
                    firstname: Option<string>, lastname: Option<string>, requested: Option<UserType>,
                    salt: int, now: int): (r: Outcome<UserBody>)
    ensures r.reply.status in {Created, Conflict}
    ensures r.reply.status == Created <==>
      password.Some? && email.Some? && firstname.Some? && lastname.Some? && FindByEmail(s, email.value).None?
    ensures r.reply.status == Conflict ==> r.store == s
    ensures r.reply.status == Conflict && password.Some? && email.Some? && firstname.Some? && lastname.Some? ==>
      r.reply.body == Some(Message("Email is already taken"))
    ensures r.reply.status == Created ==> s.users.next in r.store.users.rows
    ensures r.reply.status == Created ==>
      var id := s.users.next;
      var u := r.store.users.rows[id];
      var token := SessionToken(id, u, now);
      && id !in s.users.rows
      && r.store == s.(users := r.store.users)
      && r.store.users.rows == s.users.rows[id := u]
      && u.email == email.value && u.firstname == firstname && u.lastname == lastname
      && u.userType == (if requested.Some? then requested.value else Client)
      && (forall candidate :: CheckPassword(u, candidate) <==> candidate == password.value)
      && r.reply.authorization == Some(token)
      && r.reply.body == Some(ProfileBody(Profile(token, firstname.value, lastname.value, email.value, requested)))
  {
    if password.None? || email.None? || firstname.None? || lastname.None? then Send(Conflict, ctx, s)
    else if FindByEmail(s, email.value).Some? then
      Outcome(Reply(Conflict, Some(Message("Email is already taken")), ctx.authorization), s)
    else
      var u := NewUser(email.value, password.value, firstname.value, lastname.value, requested, salt);
      var id := s.users.next;
      var token := SessionToken(id, u, now);
      Outcome(Reply(Created, Some(ProfileBody(Profile(token, firstname.value, lastname.value, email.value, requested))),
                    Some(token)),
              s.(users := Insert(s.users, u)))
  }

  /** Registration keeps emails unique. */
  lemma RegisterKeepsEmailsUnique(s: Store, ctx: Ctx, email: Option<string>, password: Option<string>,
                                  firstname: Option<string>, lastname: Option<string>, requested: Option<UserType>,
                                  salt: int, now: int)
    requires UniqueEmails(s)
    ensures UniqueEmails(Register(s, ctx, email, password, firstname, lastname, requested, salt, now).store)
  {
  }

  /** After a successful registration, logging in with the same email and password succeeds for the
      new user and nobody else, and any other password is refused with 401. */
  lemma RegisterThenLogin(s: Store, ctx: Ctx, email: string, password: string, firstname: string, lastname: string,
                          requested: Option<UserType>, salt: int, now: int, later: int, candidate: string)
    requires Register(s, ctx, Some(email), Some(password), Some(firstname), Some(lastname), requested, salt, now).reply.status == Created
    ensures var s' := Register(s, ctx, Some(email), Some(password), Some(firstname), Some(lastname), requested, salt, now).store;
      var id := s.users.next;
      var r := Login(s', Fresh, Some(email), Some(candidate), later);
      && FindByEmail(s', email) == Some(Row(id, s'.users.rows[id]))
      && (candidate == password ==> r.reply.status == Ok && r.reply.authorization == Some(SessionToken(id, s'.users.rows[id], later)))
      && (candidate != password ==> r.reply.status == Unauthorized)
  {
    var s' := Register(s, ctx, Some(email), Some(password), Some(firstname), Some(lastname), requested, salt, now).store;
    var id := s.users.next;
    var found := FindByEmail(s', email);
    assert s'.users.rows[id].email == email;
    assert FindByEmail(s, email).None?;
    assert found.value.id == id;
  }

  /** `get`: `res.locals.jwtPayload.userId` is read before the `try`, so without a recorded payload no
      response is sent; a payload that loads no user answers 404; otherwise the profile of the user
      it loads (as written, an order payload loads the lowest-keyed user) with a refreshed session
      token. Nothing is written. The user routes do not reach this handler. */
  function Get(v: Variant, s: Store, ctx: Ctx, now: int): (r: Outcome<UserBody>)
    ensures r.store == s
    ensures r.reply.status in {Ok, NotFound, Unanswered}
    ensures r.reply.status == Unanswered <==> ctx.payload.None?
    ensures r.reply.status == NotFound <==> ctx.payload.Some? && Auth.SessionUser(v, s, ctx.payload.value).None?
    ensures r.reply.status == Ok ==>
      var u := Auth.SessionUser(v, s, ctx.payload.value).value;
      var token := SessionToken(u.id, u.val, now);
      && r.reply.authorization == Some(token)
      && r.reply.body == Some(ProfileBody(Profile(token, OrEmpty(u.val.firstname), OrEmpty(u.val.lastname),
                                                  u.val.email, Some(u.val.userType))))
  {
    match ctx.payload
    case None => NoReply(s)
    case Some(claims) =>
      match Auth.SessionUser(v, s, claims)
      case None => Send(NotFound, ctx, s)
      case Some(u) =>
        var token := SessionToken(u.id, u.val, now);
        Outcome(Reply(Ok, Some(ProfileBody(Profile(token, OrEmpty(u.val.firstname), OrEmpty(u.val.lastname),
                                                   u.val.email, Some(u.val.userType)))), Some(token)), s)
  }

  /** `del`: without a recorded payload no response is sent; a payload that loads no user answers
      404; otherwise exactly the user it loads (as written, for an order payload, the lowest-keyed
      user) is removed and the reply is 204. */
  function Del(v: Variant, s: Store, ctx: Ctx): (r: Outcome<UserBody>)
    ensures r.reply.status in {NoContent, NotFound, Unanswered}
    ensures r.reply.status == Unanswered <==> ctx.payload.None?
    ensures r.reply.status == NotFound <==> ctx.payload.Some? && Auth.SessionUser(v, s, ctx.payload.value).None?
    ensures r.reply.status != NoContent ==> r.store == s
    ensures r.reply.status == NoContent ==>
      var u := Auth.SessionUser(v, s, ctx.payload.value).value;
      && r.store == s.(users := r.store.users)
      && r.store.users.next == s.users.next
      && r.store.users.rows == s.users.rows - {u.id}
      && u.id in s.users.rows
      && (ctx.payload.value.SessionClaims? ==> u.id == ctx.payload.value.userId)
  {
    match ctx.payload
    case None => NoReply(s)
    case Some(claims) =>
      match Auth.SessionUser(v, s, claims)
      case None => Send(NotFound, ctx, s)
      case Some(u) => Send(NoContent, ctx, s.(users := Delete(s.users, u.id)))
  }

  /** `DELETE /user` runs `checkLogin()` alone. As written, the order token `POST /order` hands any
      caller passes it as the lowest-keyed user, and `del` loads that same user from the payload and
      removes them; corrected, the token is refused with 401 before `del` runs. */
  lemma OrderTokenDeletesFirstUser(s: Store, t: Token, now: int)
    requires t.claims.OrderClaims? && Verify(Some(t), now).Some?
    requires First(s.users).Some?
    ensures var g := Auth.RunGuards(AsWritten, [Auth.LoginGuard(false)], s, Some(t), now, Fresh);
      && g.Next?
      && Del(AsWritten, s, g.ctx).reply.status == NoContent
      && Del(AsWritten, s, g.ctx).store.users.rows == s.users.rows - {First(s.users).value.id}
    ensures var g := Auth.RunGuards(Corrected, [Auth.LoginGuard(false)], s, Some(t), now, Fresh);
      g.Halt? && g.status == Unauthorized
  {
    Auth.OrderTokenAuthenticatesFirstUser(s, t, now);
  }

  /** The session token registration hands out reads the new user's profile back, for seven days:
      the submitted names and email, and the type as stored (the requested one, or CLIENT). */
  lemma RegisterThenGet(v: Variant, s: Store, ctx: Ctx, email: string, password: string, firstname: string,
                        lastname: string, requested: Option<UserType>, salt: int, now: int, later: int)
    requires Register(s, ctx, Some(email), Some(password), Some(firstname), Some(lastname), requested, salt, now).reply.status == Created
    requires later < now + SESSION_LIFETIME
    ensures var reg := Register(s, ctx, Some(email), Some(password), Some(firstname), Some(lastname), requested, salt, now);
      var id := s.users.next;
      var r := Get(v, reg.store, Fresh.(payload := Verify(reg.reply.authorization, later)), later);
      && r.reply.status == Ok
      && r.reply.body == Some(ProfileBody(Profile(SessionToken(id, reg.store.users.rows[id], later), firstname, lastname,
                                                  email, Some(if requested.Some? then requested.value else Client))))
  {
  }

  /** Once an account is deleted, no session token of it authenticates any more, in either variant,
      and logging in with its email answers 500 whatever the password. */
  lemma DelThenLoggedOut(v: Variant, s: Store, ctx: Ctx, password: Option<string>, issuedAt: int, later: int)
    requires Del(v, s, ctx).reply.status == NoContent
    requires UniqueEmails(s)
    ensures var u := Auth.SessionUser(v, s, ctx.payload.value).value;
      var s' := Del(v, s, ctx).store;
      && Auth.Authenticated(AsWritten, s', Some(SessionToken(u.id, u.val, issuedAt)), later).None?
      && Auth.Authenticated(Corrected, s', Some(SessionToken(u.id, u.val, issuedAt)), later).None?
      && Login(s', Fresh, Some(u.val.email), password, later).reply.status == InternalServerError
  {
    var u := Auth.SessionUser(v, s, ctx.payload.value).value;
    var s' := Del(v, s, ctx).store;
    assert forall k :: k in s'.users.rows ==> s'.users.rows[k].email != u.val.email by {
      forall k | k in s'.users.rows
        ensures s'.users.rows[k].email != u.val.email
      {
        assert k != u.id && k in s.users.rows;
      }
    }
  }
}
