/** The order handlers: creation with a price snapshot and an order capability token,
    reading and paying by that token, the owner-checked read by id, and a user's listing. */
module OrderController {
  import opened Wrappers
  import opened Jwt
  import opened UserEntity
  import opened OrderEntity
  import opened Schema
  import opened Store
  import opened Http
  import opened Variants

  /** `OrderReturn`, and `ProcessOrderReturn` when `orderToken` is present. */
  datatype OrderView = OrderView(
    id: int,
    price: int,
    status: OrderStatus,
    restaurantName: string,
    createdAt: int,
    orderToken: Option<Token>)

  datatype OrderBody = OneOrder(view: OrderView) | OrderList(views: seq<OrderView>)

  function ViewOf(o: Row<Order>, restaurantName: string, orderToken: Option<Token>): OrderView
  {
    OrderView(o.id, o.val.price, o.val.status, restaurantName, o.val.createdAt, orderToken)
  }

  /** What presenting an order token yields: it does not verify, or it verifies but the
      restaurant or the order it names is gone, or both are found. */
  datatype Redemption =
    | Invalid
    | Missing
    | Redeemed(order: Row<Order>, restaurant: Row<Restaurant>)

  /** The shared first half of `getByToken` and `pay`: verify the token, then look up the
      restaurant and the order it names. Nothing compares the two. A session token carries neither
      `restaurantId` nor `id`: as written both lookups then load the lowest-keyed row; corrected,
      such a token finds nothing. */
  function Redeem(v: Variant, s: Store, orderToken: Option<Token>, now: int): (d: Redemption)
    ensures d.Invalid? <==> Verify(orderToken, now).None?
    ensures Verify(orderToken, now).Some? && Verify(orderToken, now).value.OrderClaims? ==>
      var c := Verify(orderToken, now).value;
      && (d.Redeemed? <==> c.id in s.orders.rows && c.restaurantId in s.restaurants.rows)
      && (d.Redeemed? ==> && d.order == Row(c.id, s.orders.rows[c.id])
                          && d.restaurant == Row(c.restaurantId, s.restaurants.rows[c.restaurantId]))
    ensures Verify(orderToken, now).Some? && Verify(orderToken, now).value.SessionClaims? && v == Corrected ==>
      d.Missing?
    ensures Verify(orderToken, now).Some? && Verify(orderToken, now).value.SessionClaims? && v == AsWritten ==>
      && (d.Redeemed? <==> First(s.orders).Some? && First(s.restaurants).Some?)
      && (d.Redeemed? ==> d.order == First(s.orders).value && d.restaurant == First(s.restaurants).value)
  {
    match Verify(orderToken, now)
    case None => Invalid
    case Some(c) =>
      match (Load(v, s.restaurants, RestaurantIdClaim(c)), Load(v, s.orders, OrderIdClaim(c)))
      case (Some(restaurant), Some(order)) => Redeemed(order, restaurant)
      case _ => Missing
  }

  /** `getByToken`, given the order token read from the request headers (see `Headers`):
      possession of a verifiable token is the only authority; the reply names the
      order the token names and echoes the token. Nothing is written. */
  function GetByToken(v: Variant, s: Store, ctx: Ctx, orderToken: Option<Token>, now: int): (r: Outcome<OrderBody>)
    ensures r.store == s
    ensures r.reply.status in {Ok, Unauthorized, NotFound}
    ensures r.reply.status == Unauthorized <==> Verify(orderToken, now).None?
    ensures r.reply.status == Ok <==> Redeem(v, s, orderToken, now).Redeemed?
    ensures r.reply.status == Ok ==>
      var d := Redeem(v, s, orderToken, now);
      r.reply.body == Some(OneOrder(ViewOf(d.order, d.restaurant.val.name, orderToken)))
    ensures r.reply.status != Ok ==> r.reply.body.None?
  {
    match Redeem(v, s, orderToken, now)
    case Invalid => Send(Unauthorized, ctx, s)
    case Missing => Send(NotFound, ctx, s)
    case Redeemed(order, restaurant) =>
      Json(Ok, OneOrder(ViewOf(order, restaurant.val.name, orderToken)), ctx, s)
  }

  /** The store after the order stored under `id` has been marked paid. */
  function MarkPaid(s: Store, id: int): (s': Store)
    requires id in s.orders.rows
    ensures s' == s.(orders := s'.orders)
    ensures s'.orders.next == s.orders.next
    ensures s'.orders.rows.Keys == s.orders.rows.Keys
    ensures s'.orders.rows[id] == s.orders.rows[id].(status := Paid)
    ensures forall k :: k in s.orders.rows && k != id ==> s'.orders.rows[k] == s.orders.rows[k]
  {
    s.(orders := Put(s.orders, id, s.orders.rows[id].(status := Paid)))
  }

  /** `pay`: the same checks as `getByToken`; on success the named order's status becomes `Paid`
      and nothing else in the store changes. */
  function Pay(v: Variant, s: Store, ctx: Ctx, orderToken: Option<Token>, now: int): (r: Outcome<OrderBody>)
    ensures r.reply.status in {Ok, Unauthorized, NotFound}
    ensures r.reply.status == Unauthorized <==> Verify(orderToken, now).None?
    ensures r.reply.status == Ok <==> Redeem(v, s, orderToken, now).Redeemed?
    ensures r.reply.status != Ok ==> r.store == s && r.reply.body.None?
    ensures r.reply.status == Ok ==>
      var d := Redeem(v, s, orderToken, now);
      && r.store == MarkPaid(s, d.order.id)
      && r.reply.body == Some(OneOrder(OrderView(d.order.id, d.order.val.price, Paid,
                                                 d.restaurant.val.name, d.order.val.createdAt, orderToken)))
  {
    match Redeem(v, s, orderToken, now)
    case Invalid => Send(Unauthorized, ctx, s)
    case Missing => Send(NotFound, ctx, s)
    case Redeemed(order, restaurant) =>
      var paid := Row(order.id, order.val.(status := Paid));
      Json(Ok, OneOrder(ViewOf(paid, restaurant.val.name, orderToken)), ctx, MarkPaid(s, order.id))
  }

  /** Paying twice with the same token leaves the same store, and gives the same reply, as paying once. */
  lemma PayIdempotent(v: Variant, s: Store, ctx: Ctx, orderToken: Option<Token>, now: int)
    ensures var once := Pay(v, s, ctx, orderToken, now);
      Pay(v, once.store, ctx, orderToken, now) == once
  {
    var once := Pay(v, s, ctx, orderToken, now);
    if once.reply.status == Ok {
      var d := Redeem(v, s, orderToken, now);
      var s1 := once.store;
      var d1 := Redeem(v, s1, orderToken, now);
      assert d1.order == Row(d.order.id, d.order.val.(status := Paid));
      assert s1.orders.rows[d.order.id := s1.orders.rows[d.order.id].(status := Paid)] == s1.orders.rows;
    }
  }

  /** The ids of the dishes a lookup returned. */
  function IdsOf(dishes: seq<Row<Dish>>): set<int>
  {
    set d | d in dishes :: d.id
  }

  /** `dishRepository.findByIds(ids)`: the dishes among `ids` that exist, each once, in key order.
      Ids that match no dish are silently dropped. */
  function FindByIds(t: Table<Dish>, ids: seq<int>): (ds: seq<Row<Dish>>)
    ensures forall d :: d in ds <==> d.id in ids && d.id in t.rows && d.val == t.rows[d.id]
    ensures AscendingIds(ds)
  {
    Where(t, Requested(ids))
  }

  /** The condition `findByIds` puts on a dish: its id is among the requested ones. */
  function Requested(ids: seq<int>): Row<Dish> -> bool
  {
    (d: Row<Dish>) => d.id in ids
  }

  /** `dishes.reduce((acc, e) => acc + e.price, 0)` */
  function PriceSum(dishes: seq<Row<Dish>>): int
  {
    if |dishes| == 0 then 0 else dishes[0].val.price + PriceSum(dishes[1..])
  }

  /** `create`: an unknown restaurant answers 404 and saves nothing, and so does a price sum the
      `integer` column cannot hold, because the save fails. Otherwise one new order is saved under
      the next key, owned by the session user if there is one, waiting, priced at the sum of the
      dishes the lookup found, and answered with a one-day order token that names exactly that
      order and restaurant. */
  function Create(s: Store, ctx: Ctx, restaurantId: int, dishIds: seq<int>, now: int): (r: Outcome<OrderBody>)
    ensures r.reply.status in {Ok, NotFound}
    ensures r.reply.status == NotFound <==>
      restaurantId !in s.restaurants.rows || !Int4(PriceSum(FindByIds(s.dishes, dishIds)))
    ensures r.reply.status == NotFound ==> r.store == s && r.reply.body.None?
    ensures r.reply.status == Ok ==>
      var id := s.orders.next;
      && id !in s.orders.rows
      && r.store == s.(orders := r.store.orders)
      && r.store.orders.rows.Keys == s.orders.rows.Keys + {id}
      && (forall k :: k in s.orders.rows ==> r.store.orders.rows[k] == s.orders.rows[k])
      && var o := r.store.orders.rows[id];
      && o.status == Waiting
      && o.user == KeyOf(ctx.user)
      && o.restaurant == Some(restaurantId)
      && o.dishes == (set k | k in dishIds && k in s.dishes.rows)
      && o.price == PriceSum(FindByIds(s.dishes, dishIds))
      && o.createdAt == now
      && r.reply.body == Some(OneOrder(OrderView(id, o.price, Waiting, s.restaurants.rows[restaurantId].name, now,
                                                 Some(Sign(OrderClaims(id, restaurantId), now, ORDER_LIFETIME)))))
  {
    match Find(s.restaurants, restaurantId)
    case None => Send(NotFound, ctx, s)
    case Some(restaurant) =>
      var dishes := FindByIds(s.dishes, dishIds);
      assert IdsOf(dishes) == (set k | k in dishIds && k in s.dishes.rows) by {
        forall k | k in dishIds && k in s.dishes.rows
          ensures k in IdsOf(dishes)
        {
          assert Row(k, s.dishes.rows[k]) in dishes;
        }
      }
      if !Int4(PriceSum(dishes)) then Send(NotFound, ctx, s)
      else
        var order := NewOrder(IdsOf(dishes), KeyOf(ctx.user), Some(restaurant.id), Some(PriceSum(dishes)), now);
        var id := s.orders.next;
        var token := Sign(OrderClaims(id, restaurant.id), now, ORDER_LIFETIME);
        Json(Ok, OneOrder(ViewOf(Row(id, order), restaurant.val.name, Some(token))), ctx,
             s.(orders := Insert(s.orders, order)))
  }

  /** `getById`: the owner check compares the order's user with the session user; an order with no
      (remaining) owner, a missing session user or a missing restaurant all throw inside the
      `try` and answer 404, like a missing order. Nothing is written. */
  function GetById(s: Store, ctx: Ctx, id: int): (r: Outcome<OrderBody>)
    ensures r.store == s
    ensures r.reply.status in {Ok, Unauthorized, NotFound}
    ensures id !in s.orders.rows ==> r.reply.status == NotFound
    ensures r.reply.status == Unauthorized <==>
      && id in s.orders.rows
      && Resolve(s.users, s.orders.rows[id].user).Some?
      && ctx.user.Some?
      && s.orders.rows[id].user.value != ctx.user.value.id
    ensures r.reply.status == Ok <==>
      && id in s.orders.rows
      && Resolve(s.users, s.orders.rows[id].user).Some?
      && ctx.user.Some?
      && s.orders.rows[id].user == Some(ctx.user.value.id)
      && Resolve(s.restaurants, s.orders.rows[id].restaurant).Some?
    ensures r.reply.status == Ok ==>
      var o := s.orders.rows[id];
      r.reply.body == Some(OneOrder(OrderView(id, o.price, o.status, s.restaurants.rows[o.restaurant.value].name,
                                              o.createdAt, None)))
  {
    match Find(s.orders, id)
    case None => Send(NotFound, ctx, s)
    case Some(order) =>
      var owner := Resolve(s.users, order.val.user);
      if owner.None? || ctx.user.None? then Send(NotFound, ctx, s)
      else if owner.value.id != ctx.user.value.id then Send(Unauthorized, ctx, s)
      else
        match Resolve(s.restaurants, order.val.restaurant)
        case None => Send(NotFound, ctx, s)
        case Some(restaurant) => Json(Ok, OneOrder(ViewOf(order, restaurant.val.name, None)), ctx, s)
  }

  /** `user.orders` with relation `orders.restaurant`: every order owned by `uid`, in key order. */
  function OrdersOf(s: Store, uid: int): (os: seq<Row<Order>>)
    ensures forall o :: o in os <==> o.id in s.orders.rows && o.val == s.orders.rows[o.id] && o.val.user == Some(uid)
    ensures AscendingIds(os)
  {
    Where(s.orders, OwnedBy(uid))
  }

  /** The condition the `orders` relation puts on an order: it belongs to user `uid`. */
  function OwnedBy(uid: int): Row<Order> -> bool
  {
    (o: Row<Order>) => o.val.user == Some(uid)
  }

  /** The listing entry of one order; reading a missing restaurant's name throws. */
  function ListEntry(restaurants: Table<Restaurant>, o: Row<Order>): Option<OrderView>
  {
    match Resolve(restaurants, o.val.restaurant)
    case None => None
    case Some(restaurant) => Some(ViewOf(o, restaurant.val.name, None))
  }

  /** `getUserOrders`: `res.locals.user.id` is read before the `try`, so without a session user no
      response is sent. A missing user, or any listed order whose restaurant is gone, answers 404;
      otherwise one entry per owned order, in the same order, showing that order and its
      restaurant's name. Nothing is written. */
  function GetUserOrders(s: Store, ctx: Ctx): (r: Outcome<OrderBody>)
    ensures r.store == s
    ensures r.reply.status in {Ok, NotFound, Unanswered}
    ensures r.reply.status == Unanswered <==> ctx.user.None?
    ensures r.reply.status == Ok <==>
      && ctx.user.Some?
      && ctx.user.value.id in s.users.rows
      && forall o :: o in OrdersOf(s, ctx.user.value.id) ==> o.val.restaurant.Some? && o.val.restaurant.value in s.restaurants.rows
    ensures r.reply.status == Ok ==>
      var os := OrdersOf(s, ctx.user.value.id);
      && r.reply.body.Some? && r.reply.body.value.OrderList?
      && var views := r.reply.body.value.views;
      && |views| == |os|
      && forall i :: 0 <= i < |os| ==>
           && os[i] in os
           && views[i] == OrderView(os[i].id, os[i].val.price, os[i].val.status,
                                    s.restaurants.rows[os[i].val.restaurant.value].name, os[i].val.createdAt, None)
  {
    match ctx.user
    case None => NoReply(s)
    case Some(me) =>
      match Find(s.users, me.id)
      case None => Send(NotFound, ctx, s)
      case Some(_) =>
        var os := OrdersOf(s, me.id);
        match MapAll(os, o => ListEntry(s.restaurants, o))
        case None => Send(NotFound, ctx, s)
        case Some(views) => Json(Ok, OrderList(views), ctx, s)
  }

  /** The lookup, and so the price, depends only on which ids were requested: neither their
      order nor repeating an id makes a difference (a dish asked for twice is charged once). */
  lemma PriceIgnoresOrderAndRepetition(t: Table<Dish>, a: seq<int>, b: seq<int>)
    requires forall k :: k in a <==> k in b
    ensures FindByIds(t, a) == FindByIds(t, b)
    ensures PriceSum(FindByIds(t, a)) == PriceSum(FindByIds(t, b))
  {
    FilterCongruent(t, Keys(t), Requested(a), Requested(b));
  }

  /** Requesting an id that matches no dish changes neither the lookup nor the price. */
  lemma UnknownDishIsIgnored(t: Table<Dish>, ids: seq<int>, d: int)
    requires d !in t.rows
    ensures FindByIds(t, ids + [d]) == FindByIds(t, ids)
  {
    FilterCongruent(t, Keys(t), Requested(ids + [d]), Requested(ids));
  }

  /** Over any ascending list of keys, also requesting a new id `d` adds exactly the price of the
      dish under `d`, if `d` is among the keys. */
  lemma {:induction false} FilterExtendPrice(t: Table<Dish>, ks: seq<int>, ids: seq<int>, d: int)
    requires forall k :: k in ks ==> k in t.rows
    requires Ascending(ks)
    requires d !in ids
    ensures PriceSum(Filter(t, ks, Requested(ids + [d])))
            == PriceSum(Filter(t, ks, Requested(ids))) + (if d in ks then t.rows[d].price else 0)
  {
    if |ks| > 0 {
      assert Ascending(ks[1..]);
      FilterExtendPrice(t, ks[1..], ids, d);
      var k := ks[0];
      assert k in ks;
      var r := Row(k, t.rows[k]);
      var with := Filter(t, ks[1..], Requested(ids + [d]));
      var without := Filter(t, ks[1..], Requested(ids));
      if k == d {
        assert d !in ks[1..];
        assert Filter(t, ks, Requested(ids + [d])) == [r] + with;
        assert ([r] + with)[1..] == with;
      } else {
        assert d in ks <==> d in ks[1..];
        if k in ids {
          assert Filter(t, ks, Requested(ids + [d])) == [r] + with;
          assert Filter(t, ks, Requested(ids)) == [r] + without;
          assert ([r] + with)[1..] == with;
          assert ([r] + without)[1..] == without;
        }
      }
    }
  }

  /** Adding one more existing dish to a request raises the price by exactly that dish's price. */
  lemma PriceOfAddedDish(t: Table<Dish>, ids: seq<int>, d: int)
    requires d in t.rows && d !in ids
    ensures PriceSum(FindByIds(t, ids + [d])) == PriceSum(FindByIds(t, ids)) + t.rows[d].price
  {
    FilterExtendPrice(t, Keys(t), ids, d);
  }

  /** An order with no dishes costs nothing. */
  lemma PriceOfNoDishes(t: Table<Dish>)
    ensures PriceSum(FindByIds(t, [])) == 0
  {
    FilterNone(t, Keys(t), Requested([]));
  }

  /** A token only ever reaches the order it names: reading succeeds only for that order, and
      paying changes no other order. */
  lemma TokenBindsOneOrder(v: Variant, s: Store, ctx: Ctx, t: Token, now: int)
    requires t.claims.OrderClaims?
    ensures var read := GetByToken(v, s, ctx, Some(t), now);
      read.reply.status == Ok ==> read.reply.body.value.view.id == t.claims.id
    ensures var paid := Pay(v, s, ctx, Some(t), now);
      forall k :: k in s.orders.rows && k != t.claims.id ==> k in paid.store.orders.rows && paid.store.orders.rows[k] == s.orders.rows[k]
  {
  }

  /** As written, a genuine, unexpired session token presented as an order token reads, and pays,
      the lowest-keyed order, shown under the lowest-keyed restaurant's name. */
  lemma SessionTokenRedeemsFirstOrder(s: Store, ctx: Ctx, t: Token, now: int)
    requires t.claims.SessionClaims? && Verify(Some(t), now).Some?
    requires First(s.orders).Some? && First(s.restaurants).Some?
    ensures var read := GetByToken(AsWritten, s, ctx, Some(t), now);
      && read.reply.status == Ok
      && read.reply.body.value.view == ViewOf(First(s.orders).value, First(s.restaurants).value.val.name, Some(t))
    ensures var paid := Pay(AsWritten, s, ctx, Some(t), now);
      && paid.reply.status == Ok
      && paid.store == MarkPaid(s, First(s.orders).value.id)
  {
  }

  /** Corrected, only an order token reads or pays an order: any other token changes nothing and is
      not answered 200. */
  lemma OnlyOrderTokensRedeem(s: Store, ctx: Ctx, orderToken: Option<Token>, now: int)
    requires orderToken.Some? ==> orderToken.value.claims.SessionClaims?
    ensures GetByToken(Corrected, s, ctx, orderToken, now).reply.status != Ok
    ensures Pay(Corrected, s, ctx, orderToken, now).reply.status != Ok
    ensures Pay(Corrected, s, ctx, orderToken, now).store == s
  {
  }

  /** The token handed out by `create` reads back the order just created, for one day and not after;
      paying with it then reads back as paid at the same price. Whoever presents the token, in
      whatever context `other`, gets the same answer, in either variant. */
  lemma CreatedTokenRedeems(v: Variant, s: Store, ctx: Ctx, restaurantId: int, dishIds: seq<int>, now: int, later: int, other: Ctx)
    requires restaurantId in s.restaurants.rows
    requires Int4(PriceSum(FindByIds(s.dishes, dishIds)))
    ensures var created := Create(s, ctx, restaurantId, dishIds, now);
      var id := s.orders.next;
      var token := Some(Sign(OrderClaims(id, restaurantId), now, ORDER_LIFETIME));
      var read := GetByToken(v, created.store, other, token, later);
      var paid := Pay(v, created.store, other, token, later);
      && (later < now + ORDER_LIFETIME ==>
            && read.reply == Reply(Ok, created.reply.body, other.authorization)
            && paid.reply.status == Ok
            && paid.store.orders.rows[id].status == Paid
            && paid.store.orders.rows[id].price == created.store.orders.rows[id].price)
      && (later >= now + ORDER_LIFETIME ==> read.reply.status == Unauthorized && paid.store == created.store)
  {
  }

  /** `create` then `getById`: the user who placed an order reads it back by its id, waiting, at its
      price, under its restaurant's name; any other user gets 401; an order placed without a session
      has no owner and answers 404 to everyone. */
  lemma CreatedOrderReadById(s: Store, ctx: Ctx, restaurantId: int, dishIds: seq<int>, now: int, other: Ctx)
    requires Create(s, ctx, restaurantId, dishIds, now).reply.status == Ok
    ensures var created := Create(s, ctx, restaurantId, dishIds, now);
      var read := GetById(created.store, ctx, s.orders.next);
      ctx.user.Some? && ctx.user.value.id in s.users.rows ==>
        && read.reply.status == Ok
        && read.reply.body == Some(OneOrder(OrderView(s.orders.next, PriceSum(FindByIds(s.dishes, dishIds)), Waiting,
                                                      s.restaurants.rows[restaurantId].name, now, None)))
    ensures var created := Create(s, ctx, restaurantId, dishIds, now);
      && ctx.user.Some? && ctx.user.value.id in s.users.rows
      && other.user.Some? && other.user.value.id != ctx.user.value.id
      ==> GetById(created.store, other, s.orders.next).reply.status == Unauthorized
    ensures ctx.user.None? ==>
      GetById(Create(s, ctx, restaurantId, dishIds, now).store, other, s.orders.next).reply.status == NotFound
  {
  }

  /** An order placed by a session user who is still stored is listed last among that user's
      orders, after the ones listed before, at its price, waiting, under its restaurant's name. */
  lemma CreatedOrderListedLast(s: Store, ctx: Ctx, restaurantId: int, dishIds: seq<int>, now: int)
    requires Create(s, ctx, restaurantId, dishIds, now).reply.status == Ok
    requires ctx.user.Some? && ctx.user.value.id in s.users.rows
    requires GetUserOrders(s, ctx).reply.status == Ok
    ensures var s' := Create(s, ctx, restaurantId, dishIds, now).store;
      var r := GetUserOrders(s', ctx);
      && r.reply.status == Ok
      && r.reply.body.value.views
         == GetUserOrders(s, ctx).reply.body.value.views
            + [OrderView(s.orders.next, PriceSum(FindByIds(s.dishes, dishIds)), Waiting,
                         s.restaurants.rows[restaurantId].name, now, None)]
  {
    var s' := Create(s, ctx, restaurantId, dishIds, now).store;
    var uid := ctx.user.value.id;
    var order := s'.orders.rows[s.orders.next];
    var added := Row(s.orders.next, order);
    var entry := o => ListEntry(s.restaurants, o);
    assert s'.orders == Insert(s.orders, order);
    WhereInsert(s.orders, order, OwnedBy(uid));
    assert OrdersOf(s', uid) == OrdersOf(s, uid) + [added];
    assert s'.restaurants == s.restaurants && s'.users == s.users;
    MapAllSnoc(OrdersOf(s, uid), added, entry);
  }
}
