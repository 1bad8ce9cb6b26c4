/** The User entity: roles, the default role, password hashing before insert,
    the session token a user is issued, and the display name used in reviews. */
module UserEntity {
  import opened Wrappers
  import Jwt
  import Bcrypt

  /** The three roles. */
  datatype UserType = Client | Pro | Admin

  /** The enum's string values as stored and sent. */
  function TypeName(t: UserType): string
  {
    match t
    case Client => "client"
    case Pro => "pro"
    case Admin => "admin"
  }

  /** Reads a role back from its string value. */
  function ParseType(name: string): (r: Option<UserType>)
    ensures r.Some? ==> TypeName(r.value) == name
  {
    if name == "client" then Some(Client)
    else if name == "pro" then Some(Pro)
    else if name == "admin" then Some(Admin)
    else None
  }

  /** Every role's string value reads back as that role, so no two roles share a value. */
  lemma TypeNameRoundTrip(t: UserType)
    ensures ParseType(TypeName(t)) == Some(t)
  {
  }

  /** A stored user. The primary key is not part of the record: the users table keys it.
      `firstname` and `lastname` are optional in the class, so they are optional here. */
  datatype User = User(
    email: string,
    firstname: Option<string>,
    lastname: Option<string>,
    password: Bcrypt.Hash,
    userType: UserType)

  /** `userRepository.create({...})` followed by the insert: the `BeforeInsert` listener
      replaces the password by its hash, and a missing type takes the column default. */
  function NewUser(email: string, password: string, firstname: string, lastname: string,
                   requested: Option<UserType>, salt: int): (u: User)
    ensures requested.None? ==> u.userType == Client
    ensures requested.Some? ==> u.userType == requested.value
    ensures u.email == email && u.firstname == Some(firstname) && u.lastname == Some(lastname)
    ensures forall candidate :: CheckPassword(u, candidate) <==> candidate == password
  {
    var t := match requested case Some(t) => t case None => Client;
    User(email, Some(firstname), Some(lastname), Bcrypt.HashSync(password, salt), t)
  }

  /** `user.checkPassword(candidate)` */
  function CheckPassword(u: User, candidate: string): bool
  {
    Bcrypt.CompareSync(candidate, u.password)
  }

  /** `user.getJWTToken()` for the user stored under `id`, signed at `now`. */
  function SessionToken(id: int, u: User, now: int): (t: Jwt.Token)
    ensures t.genuine && t.issuedAt == now
    ensures t.claims == Jwt.SessionClaims(id, u.email)
    ensures t.expiresAt == now + Jwt.SESSION_LIFETIME
  {
    Jwt.Sign(Jwt.SessionClaims(id, u.email), now, Jwt.SESSION_LIFETIME)
  }

  /** A session token verifies to `{userId, email}` for seven days after issue, and not after. */
  lemma SessionTokenVerifies(id: int, u: User, now: int, later: int)
    ensures Jwt.Verify(Some(SessionToken(id, u, now)), later)
            == (if later < now + 7 * 24 * 60 * 60 then Some(Jwt.SessionClaims(id, u.email)) else None)
  {
  }

  /** How `${this.firstname}` renders: an absent first name prints as "undefined". */
  function FirstnameText(u: User): string
  {
    match u.firstname
    case Some(f) => f
    case None => "undefined"
  }

  /** `this.lastname?.[0] || ""`: the first character of the last name, or nothing. */
  function Initial(u: User): (r: string)
    ensures |r| <= 1
    ensures |r| == 1 <==> u.lastname.Some? && |u.lastname.value| > 0
    ensures |r| == 1 ==> r[0] == u.lastname.value[0]
  {
    match u.lastname
    case Some(l) => if |l| > 0 then [l[0]] else ""
    case None => ""
  }

  /** `user.getName()`: first name, a space, the last name's initial, and a full stop. */
  function GetName(u: User): string
  {
    FirstnameText(u) + " " + Initial(u) + "."
  }

  /** The display name starts with the first name followed by a space, ends with a full stop,
      and holds at most one character of the last name between them. */
  lemma GetNameShape(u: User)
    ensures var name := GetName(u); var f := FirstnameText(u);
      && |name| == |f| + 2 + |Initial(u)|
      && name[..|f|] == f
      && name[|f|] == ' '
      && name[|name| - 1] == '.'
      && (u.lastname.Some? && |u.lastname.value| > 0 ==> name[|f| + 1] == u.lastname.value[0])
  {
  }

  /** Between users with the same first name, the display name tells them apart exactly
      when their last-name initials differ: the rest of the last name never shows. */
  lemma {:induction false} GetNameDecidedByInitial(u: User, v: User)
    requires FirstnameText(u) == FirstnameText(v)
    ensures GetName(u) == GetName(v) <==> Initial(u) == Initial(v)
  {
    var f := FirstnameText(u);
    if GetName(u) == GetName(v) {
      assert |Initial(u)| == |Initial(v)| by {
        assert |GetName(u)| == |f| + 2 + |Initial(u)|;
        assert |GetName(v)| == |f| + 2 + |Initial(v)|;
      }
      if |Initial(u)| == 1 {
        assert GetName(u)[|f| + 1] == Initial(u)[0];
        assert GetName(v)[|f| + 1] == Initial(v)[0];
      }
    }
  }
}
