/** The Order entity: its status enumeration and the record with its column defaults. */
module OrderEntity {
  import opened Wrappers

  /** The four statuses. There is no "finished" state and no separate paid flag:
      paying writes `Paid` into the status itself. */
  datatype OrderStatus = Waiting | Confirmed | Refused | Paid

  /** The enum's string values as stored and sent. */
  function StatusName(s: OrderStatus): string
  {
    match s
    case Waiting => "waiting"
    case Confirmed => "confirmed"
    case Refused => "refused"
    case Paid => "paid"
  }

  /** Reads a status back from its string value. */
  function ParseStatus(name: string): (r: Option<OrderStatus>)
    ensures r.Some? ==> StatusName(r.value) == name
  {
    if name == "waiting" then Some(Waiting)
    else if name == "confirmed" then Some(Confirmed)
    else if name == "refused" then Some(Refused)
    else if name == "paid" then Some(Paid)
    else None
  }

  /** Every status's string value reads back as that status. */
  lemma StatusNameRoundTrip(s: OrderStatus)
    ensures ParseStatus(StatusName(s)) == Some(s)
  {
  }

  /** A stored order. The dishes are a many-to-many join, so a set of dish ids; at most
      one owning user and one restaurant, each a reference that may be absent. */
  datatype Order = Order(
    status: OrderStatus,
    dishes: set<int>,
    user: Option<int>,
    restaurant: Option<int>,
    price: int,
    createdAt: int)

  /** `orderRepository.create({...})` saved at `now`: status and price take their column defaults. */
  function NewOrder(dishes: set<int>, user: Option<int>, restaurant: Option<int>,
                    price: Option<int>, now: int): (o: Order)
    ensures o.status == Waiting
    ensures price.None? ==> o.price == 0
    ensures price.Some? ==> o.price == price.value
    ensures o.dishes == dishes && o.user == user && o.restaurant == restaurant && o.createdAt == now
  {
    Order(Waiting, dishes, user, restaurant, match price case Some(p) => p case None => 0, now)
  }
}
