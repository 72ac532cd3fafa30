/**
 * The order operations: turning the requester's cart into an order,
 * looking orders up, refusing (deleting) one, and the admin listing.
 */
module OrderCrud {
  import opened Common
  import opened Seqs
  import opened Text
  import opened CartModel
  import opened OrderModel
  import opened PaymentModel
  import opened MovieModel
  import opened Shop
  import opened PaidSignals
  import opened CartCrud

  /** The cart items `create_order` snapshots: the requester's items that are unpaid. */
  function SelectedCartItems(st: ShopState, user: nat): (r: seq<CartItem>)
    ensures forall ci :: ci in r <==> ci in st.cartItems && InCartOf(st.carts, ci, user) && Unpaid(st, user, ci.movieId)
  {
    Filter(st.cartItems, (ci: CartItem) => InCartOf(st.carts, ci, user) && Unpaid(st, user, ci.movieId))
  }

  /**
   * The order items built from `items`: one per item, in the same order,
   * with consecutive ids from `firstId` and the movie's current price frozen
   * into `price_at_order`.
   */
  function SnapshotItems(items: seq<CartItem>, movies: map<nat, Movie>, orderId: nat, firstId: nat): (r: seq<OrderItem>)
    ensures |r| == |items|
    ensures forall i | 0 <= i < |r| ::
      r[i].id == firstId + i && r[i].orderId == orderId
      && r[i].movieId == items[i].movieId && r[i].priceAtOrder == PriceOf(movies, items[i].movieId)
  {
    if items == [] then []
    else [OrderItem(firstId, orderId, items[0].movieId, PriceOf(movies, items[0].movieId))]
         + SnapshotItems(items[1..], movies, orderId, firstId + 1)
  }

  /** The frozen prices add up to the current prices of the snapshotted movies. */
  lemma {:induction false} SnapshotPreservesPrice(items: seq<CartItem>, movies: map<nat, Movie>, orderId: nat, firstId: nat)
    ensures SumOf(SnapshotItems(items, movies, orderId, firstId), PriceAtOrder)
         == SumOf(items, (ci: CartItem) => PriceOf(movies, ci.movieId))
  {
    if items != [] {
      var r := SnapshotItems(items, movies, orderId, firstId);
      SnapshotPreservesPrice(items[1..], movies, orderId, firstId + 1);
      assert r[1..] == SnapshotItems(items[1..], movies, orderId, firstId + 1);
    }
  }

  /** The order `create_order` inserts and commits first. */
  function NewOrder(st: ShopState, movies: map<nat, Movie>, user: nat, id: nat, now: int): (o: Order)
    ensures o.id == id && o.userProfileId == user && o.createdAt == now
    ensures o.status == InitialOrderStatus(None)
    ensures o.totalAmount == UserCartTotal(st, movies, user)
  {
    Order(id, user, now, InitialOrderStatus(None), UserCartTotal(st, movies, user))
  }

  /**
   * The order total is the sum of the frozen prices plus the current
   * prices of the requester's cart items that were left out as already
   * paid; the two agree only when those add up to 0.
   */
  lemma OrderTotalDecomposes(st: ShopState, movies: map<nat, Movie>, user: nat, id: nat, now: int, firstId: nat)
    ensures var items := SnapshotItems(SelectedCartItems(st, user), movies, id, firstId);
      var mine := Filter(st.cartItems, (ci: CartItem) => InCartOf(st.carts, ci, user));
      NewOrder(st, movies, user, id, now).totalAmount
      == SumOf(items, PriceAtOrder)
       + SumOf(Filter(mine, (ci: CartItem) => !Unpaid(st, user, ci.movieId)), (ci: CartItem) => PriceOf(movies, ci.movieId))
  {
    TotalCoversPaidAndUnpaid(st, movies, user);
    SelectedAreUnpaidItemsOfCart(st, user);
    SnapshotPreservesPrice(SelectedCartItems(st, user), movies, id, firstId);
  }

  /** The selected items are the unpaid ones among the requester's cart items, in table order. */
  lemma SelectedAreUnpaidItemsOfCart(st: ShopState, user: nat)
    ensures Filter(Filter(st.cartItems, (ci: CartItem) => InCartOf(st.carts, ci, user)),
                   (ci: CartItem) => Unpaid(st, user, ci.movieId))
         == SelectedCartItems(st, user)
  {
    FilterConjunction(st.cartItems, (ci: CartItem) => InCartOf(st.carts, ci, user),
      (ci: CartItem) => Unpaid(st, user, ci.movieId),
      (ci: CartItem) => InCartOf(st.carts, ci, user) && Unpaid(st, user, ci.movieId));
  }

  /** Appends an order under the next order id and its items under the next item ids. */
  method InsertOrder(db: Db, o: Order, items: seq<OrderItem>)
    requires db.Valid()
    requires o.id == db.nextOrderId
    requires forall i | 0 <= i < |items| :: items[i].id == db.nextOrderItemId + i
    modifies db`orders, db`nextOrderId, db`orderItems, db`nextOrderItemId
    ensures db.Valid()
    ensures db.orders == old(db.orders) + [o] && db.nextOrderId == old(db.nextOrderId) + 1
    ensures db.orderItems == old(db.orderItems) + items && db.nextOrderItemId == old(db.nextOrderItemId) + |items|
  {
    AppendFreshKey(db.orders, OrderKey, o, db.nextOrderId);
    AppendConsecutiveKeys(db.orderItems, items, OrderItemKey, db.nextOrderItemId);
    db.orders, db.nextOrderId := db.orders + [o], db.nextOrderId + 1;
    db.orderItems, db.nextOrderItemId := db.orderItems + items, db.nextOrderItemId + |items|;
  }

  /**
   * `create_order`. The order is inserted and committed first, with the
   * total of the whole cart; then one item per selected cart item is added
   * and committed. A selected item whose movie no longer exists makes the
   * second step fail after the first was committed.
   */
  method CreateOrder(db: Db, movies: map<nat, Movie>, user: nat, now: int) returns (r: Result<Order>)
    requires db.Valid()
    modifies db`orders, db`nextOrderId, db`orderItems, db`nextOrderItemId
    ensures db.Valid()
    ensures var o := NewOrder(old(db.State()), movies, user, old(db.nextOrderId), now);
      db.orders == old(db.orders) + [o] && db.nextOrderId == old(db.nextOrderId) + 1
    ensures var selected := SelectedCartItems(old(db.State()), user);
      var o := NewOrder(old(db.State()), movies, user, old(db.nextOrderId), now);
      if exists ci | ci in selected :: ci.movieId !in movies then
        r == Err(InternalError) && db.orderItems == old(db.orderItems) && db.nextOrderItemId == old(db.nextOrderItemId)
      else
        r == Ok(o)
        && db.orderItems == old(db.orderItems) + SnapshotItems(selected, movies, o.id, old(db.nextOrderItemId))
        && db.nextOrderItemId == old(db.nextOrderItemId) + |selected|
  {
    var selected := SelectedCartItems(db.State(), user);
    var o := NewOrder(db.State(), movies, user, db.nextOrderId, now);
    var items: seq<OrderItem> := [];
    if exists ci | ci in selected :: ci.movieId !in movies {
      r := Err(InternalError);
    } else {
      items := SnapshotItems(selected, movies, o.id, db.nextOrderItemId);
      r := Ok(o);
    }
    InsertOrder(db, o, items);
  }

  /** The requester's order with id `orderId`, if any. */
  function OwnedOrder(orders: seq<Order>, user: nat, orderId: nat): (r: Option<Order>)
    ensures r.Some? ==> r.value in orders && r.value.id == orderId && r.value.userProfileId == user
    ensures r.None? ==> forall o :: o in orders ==> o.id != orderId || o.userProfileId != user
  {
    FindFirst(orders, (o: Order) => o.id == orderId && o.userProfileId == user)
  }

  /** The requester's orders, in table order. */
  function OrdersOf(orders: seq<Order>, user: nat): (r: seq<Order>)
    ensures forall o :: o in r <==> o in orders && o.userProfileId == user
  {
    Filter(orders, (o: Order) => o.userProfileId == user)
  }

  /** `order_list`: one page of the requester's orders and the number of them. */
  function OrderList(st: ShopState, user: nat, skip: nat, limit: nat): (r: (seq<Order>, nat))
    ensures r.0 == Page(OrdersOf(st.orders, user), skip, limit)
    ensures forall o :: o in r.0 ==> o in st.orders && o.userProfileId == user
    ensures |r.0| <= limit
    ensures r.1 == |OrdersOf(st.orders, user)|
    ensures skip == 0 && r.1 <= limit ==> forall o :: o in st.orders && o.userProfileId == user ==> o in r.0
  {
    var mine := OrdersOf(st.orders, user);
    var page := Page(mine, skip, limit);
    assert forall o :: o in page ==> o in mine;
    assert skip == 0 && |mine| <= limit ==> page == mine;
    (page, |mine|)
  }

  /** `order_detail`: the requester's order with its items, else OrderDoesNotExistError. */
  function OrderDetail(st: ShopState, user: nat, orderId: nat): (r: Result<(Order, seq<OrderItem>)>)
    ensures r.Err? <==> forall o :: o in st.orders ==> o.id != orderId || o.userProfileId != user
    ensures r.Err? ==> r.error == OrderDoesNotExist
    ensures r.Ok? ==> r.value.0 in st.orders && r.value.0.id == orderId && r.value.0.userProfileId == user
    ensures r.Ok? ==> forall oi :: oi in r.value.1 <==> oi in st.orderItems && oi.orderId == orderId
  {
    match OwnedOrder(st.orders, user, orderId)
    case None => Err(OrderDoesNotExist)
    case Some(o) => Ok((o, ItemsOfOrder(st.orderItems, orderId)))
  }

  /** `order_confirm`: the redirect marker for the requester's own order, else OrderDoesNotExistError. */
  function OrderConfirm(st: ShopState, user: nat, orderId: nat): (r: Result<string>)
    ensures r.Ok? <==> exists o | o in st.orders :: o.id == orderId && o.userProfileId == user
    ensures r.Ok? ==> r.value == "redirect_to_stripe_url"
    ensures r.Err? ==> r.error == OrderDoesNotExist
  {
    if OwnedOrder(st.orders, user, orderId).Some? then Ok("redirect_to_stripe_url") else Err(OrderDoesNotExist)
  }

  /**
   * Deleting order `orderId` fails at the commit when a row still points
   * at it. `Order.order_items` and `Order.payments` have no delete cascade,
   * so the flush sets their `order_id` to NULL, which both NOT NULL columns
   * refuse; `payment_items.order_item_id`, as declared, references
   * `orders.id` with no relationship from the order, and the foreign key
   * refuses the delete.
   */
  predicate DeleteBlocked(st: ShopState, orderId: nat)
  {
    (exists oi | oi in st.orderItems :: oi.orderId == orderId)
    || (exists p | p in st.payments :: p.orderId == orderId)
    || (exists pi | pi in st.paymentItems :: pi.orderItemId == orderId)
  }

  /**
   * `order_refuse`. The requester's order is deleted whatever its status,
   * but only when nothing points at it: an order with items or payments
   * makes the commit fail, which is rolled back and re-raised. No other
   * row changes.
   */
  method OrderRefuse(db: Db, user: nat, orderId: nat) returns (r: Result<string>)
    requires db.Valid()
    modifies db`orders
    ensures db.Valid()
    ensures OwnedOrder(old(db.orders), user, orderId).None? ==>
      r == Err(OrderDoesNotExist) && db.State() == old(db.State())
    ensures OwnedOrder(old(db.orders), user, orderId).Some? && DeleteBlocked(old(db.State()), orderId) ==>
      r == Err(InternalError) && db.State() == old(db.State())
    ensures OwnedOrder(old(db.orders), user, orderId).Some? && !DeleteBlocked(old(db.State()), orderId) ==>
      r == Ok("Order was successfully deleted.")
      && (forall o :: o in db.orders <==> o in old(db.orders) && o.id != orderId)
      && (forall oi | oi in db.orderItems :: oi.orderId != orderId)
      && db.State() == old(db.State()).(orders := db.orders)
  {
    if OwnedOrder(db.orders, user, orderId).None? {
      return Err(OrderDoesNotExist);
    }
    if DeleteBlocked(db.State(), orderId) {
      return Err(InternalError);
    }
    FilterDistinctKeys(db.orders, (o: Order) => o.id != orderId, OrderKey);
    FilterKeysBelow(db.orders, (o: Order) => o.id != orderId, OrderKey, db.nextOrderId);
    db.orders := Filter(db.orders, (o: Order) => o.id != orderId);
    r := Ok("Order was successfully deleted.");
  }

  /** The date and status filters of the admin order listing that the request sets. */
  predicate AdminOrderMatches(o: Order, since: Option<int>, status: Option<string>)
  {
    (since.None? || o.createdAt >= since.value)
    && (status.None? || ParseOrderStatus(status.value).None? || o.status == ParseOrderStatus(status.value).value)
  }

  /** The orders that pass the filters of the admin listing, in table order. */
  function AdminMatching(orders: seq<Order>, since: Option<int>, status: Option<string>): (r: seq<Order>)
    ensures forall o :: o in r <==> o in orders && AdminOrderMatches(o, since, status)
  {
    Filter(orders, (o: Order) => AdminOrderMatches(o, since, status))
  }

  /**
   * `admin_users_order_list`: refused to base-role users. A non-empty email
   * search reads `email` on the `UserProfile.user` relationship attribute,
   * which has none, and raises before any query runs. Otherwise one page
   * of the orders that pass the date and status filters, and the number
   * of all orders.
   */
  function AdminUsersOrderList(st: ShopState, who: Requester,
                               search: Option<string>, since: Option<int>, status: Option<string>,
                               skip: nat, limit: nat): (r: Result<(seq<Order>, nat)>)
    ensures IsBaseRole(who.role) <==> r == Err(UserDontHavePermission)
    ensures r == Err(InternalError) <==> !IsBaseRole(who.role) && search.Some? && search.value != ""
    ensures r.Ok? ==> r.value.0 == Page(AdminMatching(st.orders, since, status), skip, limit)
    ensures r.Ok? ==> |r.value.0| <= limit && r.value.1 == |st.orders|
    ensures r.Ok? ==> forall o :: o in r.value.0 ==> o in st.orders && AdminOrderMatches(o, since, status)
    ensures r.Ok? && since.Some? ==> forall o :: o in r.value.0 ==> o.createdAt >= since.value
    ensures r.Ok? && status.Some? && ParseOrderStatus(status.value).Some? ==>
      forall o :: o in r.value.0 ==> OrderStatusValue(o.status) == status.value
    ensures r.Ok? && skip == 0 && |AdminMatching(st.orders, since, status)| <= limit ==>
      forall o :: o in st.orders && AdminOrderMatches(o, since, status) ==> o in r.value.0
  {
    if IsBaseRole(who.role) then Err(UserDontHavePermission)
    else if search.Some? && search.value != "" then Err(InternalError)
    else
      var matching := AdminMatching(st.orders, since, status);
      var page := Page(matching, skip, limit);
      assert forall o :: o in page ==> o in matching;
      assert skip == 0 && |matching| <= limit ==> page == matching;
      Ok((page, |st.orders|))
  }

  /** A status value outside PENDING, PAID and CANCELED filters nothing. */
  lemma UnknownOrderStatusIgnored(st: ShopState, who: Requester,
                                  search: Option<string>, since: Option<int>, status: string, skip: nat, limit: nat)
    requires ParseOrderStatus(status).None?
    ensures AdminUsersOrderList(st, who, search, since, Some(status), skip, limit)
         == AdminUsersOrderList(st, who, search, since, None, skip, limit)
  {
    FilterCongruent(st.orders,
      (o: Order) => AdminOrderMatches(o, since, Some(status)),
      (o: Order) => AdminOrderMatches(o, since, None));
  }
}
