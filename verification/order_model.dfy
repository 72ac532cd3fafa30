/**
 * The `orders` and `order_items` tables. Money columns are DECIMAL(10, 2)
 * and are held as whole cents.
 */
module OrderModel {
  import opened Common
  import opened Seqs

  /** `OrderStatusEnum`. */
  datatype OrderStatus = OrderPending | OrderPaid | OrderCanceled

  /** The string value of each status, which is what the admin filter compares with. */
  function OrderStatusValue(s: OrderStatus): string
  {
    match s
    case OrderPending => "PENDING"
    case OrderPaid => "PAID"
    case OrderCanceled => "CANCELED"
  }

  /** The status whose value is `v`, if there is one. */
  function ParseOrderStatus(v: string): (r: Option<OrderStatus>)
    ensures r.Some? ==> OrderStatusValue(r.value) == v
    ensures r.None? ==> v != "PENDING" && v != "PAID" && v != "CANCELED"
  {
    if v == "PENDING" then Some(OrderPending)
    else if v == "PAID" then Some(OrderPaid)
    else if v == "CANCELED" then Some(OrderCanceled)
    else None
  }

  /** A status string names exactly one status, and each status has exactly one string. */
  lemma OrderStatusRoundTrip(v: string, s: OrderStatus)
    ensures ParseOrderStatus(v) == Some(s) <==> v == OrderStatusValue(s)
  {
  }

  /** The value the `status` column takes when a row is inserted with `status` unset or set. */
  function InitialOrderStatus(given: Option<OrderStatus>): (s: OrderStatus)
    ensures given.None? ==> s == OrderPending
    ensures given.Some? ==> s == given.value
  {
    if given.Some? then given.value else OrderPending
  }

  /** A row of `orders`; `createdAt` is the server timestamp in seconds. */
  datatype Order = Order(id: nat, userProfileId: nat, createdAt: int, status: OrderStatus, totalAmount: nat)

  /** A row of `order_items`: `order_id` and `movie_id` are NOT NULL, so they are plain ids here. */
  datatype OrderItem = OrderItem(id: nat, orderId: nat, movieId: nat, priceAtOrder: nat)

  function OrderKey(o: Order): nat { o.id }
  function OrderItemKey(oi: OrderItem): nat { oi.id }
  function PriceAtOrder(oi: OrderItem): nat { oi.priceAtOrder }

  /** The items of order `orderId`, in table order: the `Order.order_items` collection. */
  function ItemsOfOrder(items: seq<OrderItem>, orderId: nat): (r: seq<OrderItem>)
    ensures forall oi :: oi in r <==> oi in items && oi.orderId == orderId
  {
    Filter(items, (oi: OrderItem) => oi.orderId == orderId)
  }
}
