/** Signed, time-limited bearer tokens, standing in for the jsonwebtoken library.
    Cryptography is not modelled: a token records whether it was signed with the
    server's secret, and verification succeeds exactly for genuine, unexpired tokens. */
module Jwt {
  import opened Wrappers

  /** The claim sets the server signs: a user session, or an order capability. */
  datatype Claims =
    | SessionClaims(userId: int, email: string)
    | OrderClaims(id: int, restaurantId: int)

  /** A token as a client may present it. `genuine` is true exactly when the
      signature was made with the server's secret; times are in seconds. */
  datatype Token = Token(claims: Claims, issuedAt: int, expiresAt: int, genuine: bool)

  const DAY: int := 24 * 60 * 60
  /** `expiresIn: "7d"` */
  const SESSION_LIFETIME: int := 7 * DAY
  /** `expiresIn: "1d"` */
  const ORDER_LIFETIME: int := DAY

  /** `jwt.sign(claims, secret, { expiresIn })` issued at time `now`. */
  function Sign(claims: Claims, now: int, lifetime: int): Token
  {
    Token(claims, now, now + lifetime, true)
  }

  /** `jwt.verify(token, secret)`: the claims come back iff a token was presented,
      it is genuine and the clock has not reached its expiry; otherwise it throws. */
  function Verify(token: Option<Token>, now: int): (r: Option<Claims>)
    ensures r.Some? <==> token.Some? && token.value.genuine && now < token.value.expiresAt
    ensures r.Some? ==> r.value == token.value.claims
  {
    match token
    case None => None
    case Some(t) => if t.genuine && now < t.expiresAt then Some(t.claims) else None
  }

  /** A freshly signed token verifies to exactly its claims for `lifetime` seconds, and never after. */
  lemma SignThenVerify(claims: Claims, issuedAt: int, lifetime: int, now: int)
    ensures Verify(Some(Sign(claims, issuedAt, lifetime)), now)
            == (if now < issuedAt + lifetime then Some(claims) else None)
  {
  }

  /** A token not signed with the server's secret never verifies, whatever its claims and expiry. */
  lemma ForgedNeverVerifies(t: Token, now: int)
    requires !t.genuine
    ensures Verify(Some(t), now).None?
  {
  }

  /** `payload.userId`: only a session claim set carries it. */
  function SessionUserId(c: Claims): (r: Option<int>)
    ensures r.Some? <==> c.SessionClaims?
    ensures c.SessionClaims? ==> r.value == c.userId
  {
    match c
    case SessionClaims(userId, _) => Some(userId)
    case OrderClaims(_, _) => None
  }

  /** `payload.id`: only an order claim set carries it. */
  function OrderIdClaim(c: Claims): (r: Option<int>)
    ensures r.Some? <==> c.OrderClaims?
    ensures c.OrderClaims? ==> r.value == c.id
  {
    match c
    case SessionClaims(_, _) => None
    case OrderClaims(id, _) => Some(id)
  }

  /** `payload.restaurantId`: only an order claim set carries it. */
  function RestaurantIdClaim(c: Claims): (r: Option<int>)
    ensures r.Some? <==> c.OrderClaims?
    ensures c.OrderClaims? ==> r.value == c.restaurantId
  {
    match c
    case SessionClaims(_, _) => None
    case OrderClaims(_, restaurantId) => Some(restaurantId)
  }
}
