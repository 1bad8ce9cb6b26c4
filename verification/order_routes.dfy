/** The order route table: which guards run before which order handler, and what a
    request to each route produces end to end. */
module OrderRoutes {
  import opened Wrappers
  import opened Jwt
  import opened UserEntity
  import opened OrderEntity
  import opened Store
  import opened Http
  import opened Auth
  import opened OrderController
  import opened Headers
  import opened Variants
  import opened Schema

  datatype Endpoint = ByToken | ById | UserOrders | CreateOrder | PayOrder

  /** The routes in their registration order. `/order/token` precedes `/order/:id`, so a
      request for it never reaches the id route. */
  const Routes: seq<Route<Endpoint>> := [
    Route(GET, "/order/token", ByToken, []),
    Route(GET, "/order/:id", ById, [LoginGuard(false), RoleGuard([Client])]),
    Route(GET, "/orders", UserOrders, [LoginGuard(false), RoleGuard([Client])]),
    Route(POST, "/order", CreateOrder, [LoginGuard(true)]),
    Route(PATCH, "/order/pay", PayOrder, [])
  ]

  /** A request to one of the routes, with the inputs its handler reads. The token routes carry
      the request headers their handler reads the order token from. */
  datatype Request =
    | ReadByToken(headers: Received)
    | ReadById(id: int)
    | ListMine
    | Place(restaurantId: int, dishIds: seq<int>)
    | PayByToken(headers: Received)

  function EndpointOf(req: Request): Endpoint
  {
    match req
    case ReadByToken(_) => ByToken
    case ReadById(_) => ById
    case ListMine => UserOrders
    case Place(_, _) => CreateOrder
    case PayByToken(_) => PayOrder
  }

  function Dispatch(v: Variant, s: Store, ctx: Ctx, req: Request, now: int): Outcome<OrderBody>
  {
    match req
    case ReadByToken(h) => GetByToken(v, s, ctx, ReadOrderToken(v, h), now)
    case ReadById(id) => GetById(s, ctx, id)
    case ListMine => GetUserOrders(s, ctx)
    case Place(restaurantId, dishIds) => Create(s, ctx, restaurantId, dishIds, now)
    case PayByToken(h) => Pay(v, s, ctx, ReadOrderToken(v, h), now)
  }

  /** A request carrying bearer token `authorization`: its route's guards, then its handler. A guard
      that answers ends the request with the store untouched; one that throws leaves it unanswered. */
  function Serve(v: Variant, s: Store, req: Request, authorization: Option<Token>, now: int): Outcome<OrderBody>
  {
    match RunGuards(v, GuardsFor(Routes, EndpointOf(req)), s, authorization, now, Fresh)
    case Fault => NoReply(s)
    case Halt(status, ctx) => Send(status, ctx, s)
    case Next(ctx) => Dispatch(v, s, ctx, req, now)
  }

  /** Reading and paying by token have no guards: the session token, valid or not, makes no
      difference, and the order token is the only authority. */
  lemma CapabilityRoutesIgnoreSession(v: Variant, s: Store, req: Request, a: Option<Token>, b: Option<Token>, now: int)
    requires req.ReadByToken? || req.PayByToken?
    ensures Serve(v, s, req, a, now) == Serve(v, s, req, b, now)
    ensures Serve(v, s, req, a, now) == Dispatch(v, s, Fresh, req, now)
  {
  }

  /** Reading an order by id: unless the token authenticates a user the guard answers 401; a PRO or
      ADMIN is stopped with 401 by the role guard before the ownership check could run, even for an
      order of their own; a CLIENT reaches the handler with themself bound. As written, a genuine
      order token authenticates as the lowest-keyed user. */
  lemma ReadByIdGuarded(v: Variant, s: Store, id: int, authorization: Option<Token>, now: int)
    ensures var r := Serve(v, s, ReadById(id), authorization, now);
      var u := Authenticated(v, s, authorization, now);
      && (u.None? ==> r.reply.status == Unauthorized && r.store == s)
      && (u.Some? && u.value.val.userType != Client ==> r.reply.status == Unauthorized && r.store == s)
      && (u.Some? && u.value.val.userType == Client ==>
            r == GetById(s, SessionCtx(v, s, authorization, now), id))
  {
    SessionThenRole(v, [Client], s, authorization, now);
  }

  /** A CLIENT asking for an order owned by another existing user gets 401, not 404. */
  lemma ForeignOrderIsUnauthorized(v: Variant, s: Store, id: int, authorization: Option<Token>, now: int)
    requires Authenticated(v, s, authorization, now).Some?
    requires Authenticated(v, s, authorization, now).value.val.userType == Client
    requires id in s.orders.rows
    requires Resolve(s.users, s.orders.rows[id].user).Some?
    requires s.orders.rows[id].user != Some(Authenticated(v, s, authorization, now).value.id)
    ensures Serve(v, s, ReadById(id), authorization, now).reply.status == Unauthorized
  {
    ReadByIdGuarded(v, s, id, authorization, now);
  }

  /** Listing one's orders: non-CLIENTs and requests that authenticate nobody get 401; a CLIENT gets
      an answer (the handler's exception path cannot be reached behind the guards). */
  lemma ListMineGuarded(v: Variant, s: Store, authorization: Option<Token>, now: int)
    ensures var r := Serve(v, s, ListMine, authorization, now);
      var u := Authenticated(v, s, authorization, now);
      && r.store == s
      && (u.None? || u.value.val.userType != Client ==> r.reply.status == Unauthorized)
      && (u.Some? && u.value.val.userType == Client ==> r.reply.status in {Ok, NotFound})
      && (u.Some? && u.value.val.userType == Client ==> r == GetUserOrders(s, SessionCtx(v, s, authorization, now)))
  {
    SessionThenRole(v, [Client], s, authorization, now);
  }

  /** Placing an order without an authenticating token still reaches the handler, and the order is
      saved with no owner; otherwise it is saved as the authenticated user's, and the reply carries
      a refreshed session token for them. */
  lemma PlaceOwnership(v: Variant, s: Store, restaurantId: int, dishIds: seq<int>, authorization: Option<Token>, now: int)
    requires restaurantId in s.restaurants.rows
    requires Int4(PriceSum(FindByIds(s.dishes, dishIds)))
    ensures var r := Serve(v, s, Place(restaurantId, dishIds), authorization, now);
      var u := Authenticated(v, s, authorization, now);
      && r.reply.status == Ok
      && r.store.orders.rows[s.orders.next].user == (if u.Some? then Some(u.value.id) else None)
      && (u.Some? ==> r.reply.authorization == Some(SessionToken(u.value.id, u.value.val, now)))
      && (u.None? ==> r.reply.authorization.None?)
  {
    PlaceServes(v, s, restaurantId, dishIds, authorization, now);
  }

  /** As written, `GET /order/token` reads `req.headers['orderToken']`, which no request can carry:
      whatever the client sends, reading answers 401. */
  lemma AsWrittenReadByTokenRefuses(s: Store, sent: Sent, authorization: Option<Token>, now: int)
    ensures Serve(AsWritten, s, ReadByToken(Receive(sent)), authorization, now).reply.status == Unauthorized
  {
    TokenRoutesServe(AsWritten, s, Receive(sent), authorization, now);
    AsWrittenFindsNothing(sent);
  }

  /** As written, paying reads the order token the same way: whatever the client sends, paying
      answers 401 and changes nothing. */
  lemma AsWrittenPayByTokenRefuses(s: Store, sent: Sent, authorization: Option<Token>, now: int)
    ensures var paid := Serve(AsWritten, s, PayByToken(Receive(sent)), authorization, now);
      paid.reply.status == Unauthorized && paid.store == s
  {
    TokenRoutesServe(AsWritten, s, Receive(sent), authorization, now);
    AsWrittenFindsNothing(sent);
  }

  /** Corrected, reading the header under its lower-cased name, a client that sends the token `create`
      handed out as `orderToken` reads back the order just created within the day. */
  lemma PlacedOrderReadableByHeader(s: Store, restaurantId: int, dishIds: seq<int>, authorization: Option<Token>,
                                    sent: Sent, now: int, later: int)
    requires restaurantId in s.restaurants.rows
    requires Int4(PriceSum(FindByIds(s.dishes, dishIds)))
    requires now <= later < now + ORDER_LIFETIME
    ensures var placed := Serve(Corrected, s, Place(restaurantId, dishIds), authorization, now);
      var token := placed.reply.body.value.view.orderToken.value;
      var read := Serve(Corrected, placed.store, ReadByToken(Receive(sent + [("orderToken", token)])), authorization, later);
      read.reply.status == Ok && read.reply.body == placed.reply.body
  {
    PlacedTokenByHeader(s, restaurantId, dishIds, authorization, sent, now, later);
  }

  /** Corrected, the same token pays the order just created within the day, at the price it was
      placed at. */
  lemma PlacedOrderPayableByHeader(s: Store, restaurantId: int, dishIds: seq<int>, authorization: Option<Token>,
                                   sent: Sent, now: int, later: int)
    requires restaurantId in s.restaurants.rows
    requires Int4(PriceSum(FindByIds(s.dishes, dishIds)))
    requires now <= later < now + ORDER_LIFETIME
    ensures var placed := Serve(Corrected, s, Place(restaurantId, dishIds), authorization, now);
      var token := placed.reply.body.value.view.orderToken.value;
      var paid := Serve(Corrected, placed.store, PayByToken(Receive(sent + [("orderToken", token)])), authorization, later);
      && paid.reply.status == Ok
      && s.orders.next in paid.store.orders.rows
      && paid.store.orders.rows[s.orders.next].status == Paid
      && paid.store.orders.rows[s.orders.next].price == PriceSum(FindByIds(s.dishes, dishIds))
  {
    PlacedTokenByHeader(s, restaurantId, dishIds, authorization, sent, now, later);
  }

  /** Shared step of the two lemmas above: the placed order's token, sent under the clients'
      spelling, reaches the handlers, which redeem it. */
  lemma PlacedTokenByHeader(s: Store, restaurantId: int, dishIds: seq<int>, authorization: Option<Token>,
                            sent: Sent, now: int, later: int)
    requires restaurantId in s.restaurants.rows
    requires Int4(PriceSum(FindByIds(s.dishes, dishIds)))
    requires now <= later < now + ORDER_LIFETIME
    ensures var ctx := PlaceContext(Corrected, s, authorization, now);
      var placed := Serve(Corrected, s, Place(restaurantId, dishIds), authorization, now);
      var token := Sign(OrderClaims(s.orders.next, restaurantId), now, ORDER_LIFETIME);
      var h := Receive(sent + [("orderToken", token)]);
      && placed == Create(s, ctx, restaurantId, dishIds, now)
      && placed.reply.body.value.view.orderToken == Some(token)
      && Serve(Corrected, placed.store, ReadByToken(h), authorization, later)
         == GetByToken(Corrected, placed.store, Fresh, Some(token), later)
      && Serve(Corrected, placed.store, PayByToken(h), authorization, later)
         == Pay(Corrected, placed.store, Fresh, Some(token), later)
  {
    var placed := Serve(Corrected, s, Place(restaurantId, dishIds), authorization, now);
    PlaceServes(Corrected, s, restaurantId, dishIds, authorization, now);
    var token := Sign(OrderClaims(s.orders.next, restaurantId), now, ORDER_LIFETIME);
    ClientSpellingIsOrderToken();
    CorrectedReadsSentToken(sent, "orderToken", token);
    TokenRoutesServe(Corrected, placed.store, Receive(sent + [("orderToken", token)]), authorization, later);
  }

  /** `POST /order` runs the handler in the context its guard leaves. */
  lemma PlaceServes(v: Variant, s: Store, restaurantId: int, dishIds: seq<int>, authorization: Option<Token>, now: int)
    ensures Serve(v, s, Place(restaurantId, dishIds), authorization, now)
            == Create(s, PlaceContext(v, s, authorization, now), restaurantId, dishIds, now)
  {
  }

  /** The token routes run their handler on a fresh context, with the token read from the headers
      the way the variant reads it. */
  lemma TokenRoutesServe(v: Variant, s: Store, h: Received, authorization: Option<Token>, now: int)
    ensures Serve(v, s, ReadByToken(h), authorization, now) == GetByToken(v, s, Fresh, ReadOrderToken(v, h), now)
    ensures Serve(v, s, PayByToken(h), authorization, now) == Pay(v, s, Fresh, ReadOrderToken(v, h), now)
  {
    assert GuardsFor(Routes, ByToken) == [];
    assert GuardsFor(Routes, PayOrder) == [];
  }

  /** The context `POST /order` hands its handler: the guard never stops it. */
  function PlaceContext(v: Variant, s: Store, authorization: Option<Token>, now: int): (ctx: Ctx)
    ensures RunGuards(v, GuardsFor(Routes, CreateOrder), s, authorization, now, Fresh) == Next(ctx)
    ensures ctx.user == Authenticated(v, s, authorization, now)
    ensures Authenticated(v, s, authorization, now).None? ==> ctx.authorization.None?
    ensures Authenticated(v, s, authorization, now).Some? ==>
      var u := Authenticated(v, s, authorization, now).value;
      ctx.authorization == Some(SessionToken(u.id, u.val, now))
  {
    assert GuardsFor(Routes, CreateOrder) == [LoginGuard(true)];
    RunGuards(v, GuardsFor(Routes, CreateOrder), s, authorization, now, Fresh).ctx
  }

  /** As written, anyone holding the order token of their own order can list the orders of the
      lowest-keyed user, when that user is a CLIENT; corrected, the token is refused with 401. */
  lemma OrderTokenListsFirstUsersOrders(s: Store, t: Token, now: int)
    requires t.claims.OrderClaims? && Verify(Some(t), now).Some?
    requires First(s.users).Some? && First(s.users).value.val.userType == Client
    ensures Serve(AsWritten, s, ListMine, Some(t), now)
            == GetUserOrders(s, SessionCtx(AsWritten, s, Some(t), now))
    ensures SessionCtx(AsWritten, s, Some(t), now).user == First(s.users)
    ensures Serve(Corrected, s, ListMine, Some(t), now).reply.status == Unauthorized
  {
    OrderTokenAuthenticatesFirstUser(s, t, now);
    ListMineGuarded(AsWritten, s, Some(t), now);
    ListMineGuarded(Corrected, s, Some(t), now);
  }
}
