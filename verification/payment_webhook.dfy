/**
 * The payment processor's webhook. A delivery whose signature verifies and
 * whose event type is one of three known types sets the order's status and
 * appends a payment to the ledger in a first commit, then appends one
 * payment item per order item in a second commit. Signature verification
 * is an oracle: its outcome is the `Delivery` the webhook receives.
 */
module PaymentWebhook {
  import opened Common
  import opened Seqs
  import opened OrderModel
  import opened PaymentModel
  import opened MovieModel
  import opened Shop
  import opened PaidSignals

  /** The metadata a checkout session carries and the processor echoes back. */
  datatype Metadata = Metadata(userProfileId: nat, orderId: nat, totalAmount: nat)

  /** A processor event: its id, its type and its session's metadata. */
  datatype Event = Event(id: string, kind: string, metadata: Metadata)

  /** What verifying the raw request against its signature header yields. */
  datatype Delivery = Verified(event: Event) | BadSignature | BadPayload

  const CheckoutCompleted: string := "checkout.session.completed"
  const PaymentFailed: string := "payment_intent.payment_failed"
  const ChargeRefunded: string := "charge.refunded"

  /**
   * The (payment status, order status) pair an event type sets, or None for
   * a type the webhook ignores. A payment is SUCCESSFUL exactly when its
   * order becomes PAID.
   */
  function StatusesFor(kind: string): (r: Option<(PaymentStatus, OrderStatus)>)
    ensures r.Some? <==> kind == CheckoutCompleted || kind == PaymentFailed || kind == ChargeRefunded
    ensures kind == CheckoutCompleted ==> r == Some((PaymentSuccessful, OrderPaid))
    ensures kind == PaymentFailed ==> r == Some((PaymentCanceled, OrderCanceled))
    ensures kind == ChargeRefunded ==> r == Some((PaymentRefunded, OrderCanceled))
    ensures r.Some? ==> (r.value.0 == PaymentSuccessful <==> r.value.1 == OrderPaid)
  {
    if kind == CheckoutCompleted then Some((PaymentSuccessful, OrderPaid))
    else if kind == PaymentFailed then Some((PaymentCanceled, OrderCanceled))
    else if kind == ChargeRefunded then Some((PaymentRefunded, OrderCanceled))
    else None
  }

  predicate OrderExists(orders: seq<Order>, orderId: nat)
  {
    exists o | o in orders :: o.id == orderId
  }

  /** `orders` with the status of order `orderId` set to `s`. */
  function WithOrderStatus(orders: seq<Order>, orderId: nat, s: OrderStatus): seq<Order>
  {
    MapRows(orders, (o: Order) => if o.id == orderId then o.(status := s) else o)
  }

  /**
   * The payment the webhook records. Its user profile id is read from the
   * metadata's `order_id` key, like its order id.
   */
  function WebhookPayment(ev: Event, status: PaymentStatus, id: nat, now: int): Payment
  {
    Payment(id, ev.metadata.orderId, ev.metadata.orderId, now, status, ev.metadata.totalAmount, ev.id)
  }

  /** The first commit: the order's new status and the appended payment. */
  function RecordPayment(st: ShopState, ev: Event, statuses: (PaymentStatus, OrderStatus), paymentId: nat, now: int): ShopState
  {
    st.(orders := WithOrderStatus(st.orders, ev.metadata.orderId, statuses.1),
        payments := st.payments + [WebhookPayment(ev, statuses.0, paymentId, now)])
  }

  /**
   * The payment items of the second commit: one per order item, in the same
   * order, with consecutive ids from `firstId` and the movie's current price.
   */
  function LedgerItems(items: seq<OrderItem>, movies: map<nat, Movie>, paymentId: nat, firstId: nat): (r: seq<PaymentItem>)
    ensures |r| == |items|
    ensures forall i | 0 <= i < |r| ::
      r[i].id == firstId + i && r[i].paymentId == paymentId
      && r[i].orderItemId == items[i].id && r[i].priceAtPayment == PriceOf(movies, items[i].movieId)
  {
    if items == [] then []
    else [PaymentItem(firstId, paymentId, items[0].id, PriceOf(movies, items[0].movieId))]
         + LedgerItems(items[1..], movies, paymentId, firstId + 1)
  }

  /**
   * Inserting payment items for `items` passes the UNIQUE constraint on
   * `payment_items.order_item_id` and its foreign key, which as declared
   * points at `orders.id`.
   */
  predicate LedgerInsertable(st: ShopState, items: seq<OrderItem>)
  {
    forall oi | oi in items ::
      (forall pi | pi in st.paymentItems :: pi.orderItemId != oi.id) && OrderExists(st.orders, oi.id)
  }

  /**
   * `stripe_webhook_endpoint`. A failed verification is a 400 and an
   * unknown event type a no-op. Otherwise the order's status and the new
   * payment are committed together; a missing order, or a user profile id
   * (read from `order_id`) with no profile, makes that commit fail. The
   * payment items follow in a second commit, which fails, leaving the first
   * in place, when an item's movie is gone or the insert breaks a
   * constraint.
   */
  method StripeWebhook(db: Db, movies: map<nat, Movie>, profiles: set<nat>, delivery: Delivery, now: int)
    returns (r: Result<()>)
    requires db.Valid()
    modifies db`orders, db`payments, db`nextPaymentId, db`paymentItems, db`nextPaymentItemId
    ensures db.Valid()
    ensures delivery.BadSignature? ==> r == Err(HttpError(400, "Invalid signature was provided")) && unchanged(db)
    ensures delivery.BadPayload? ==> r == Err(HttpError(400, "Invalid payload was provided")) && unchanged(db)
    ensures delivery.Verified? && StatusesFor(delivery.event.kind).None? ==> r == Ok(()) && unchanged(db)
    ensures delivery.Verified? && StatusesFor(delivery.event.kind).Some? ==>
      var ev := delivery.event;
      var st := old(db.State());
      if !OrderExists(st.orders, ev.metadata.orderId) || ev.metadata.orderId !in profiles then
        r == Err(InternalError) && unchanged(db)
      else
        var st1 := RecordPayment(st, ev, StatusesFor(ev.kind).value, old(db.nextPaymentId), now);
        var items := ItemsOfOrder(st.orderItems, ev.metadata.orderId);
        db.orders == st1.orders && db.payments == st1.payments && db.nextPaymentId == old(db.nextPaymentId) + 1
        && if (exists oi | oi in items :: oi.movieId !in movies) || !LedgerInsertable(st1, items) then
             r == Err(InternalError)
             && db.paymentItems == st.paymentItems && db.nextPaymentItemId == old(db.nextPaymentItemId)
           else
             r == Ok(())
             && db.paymentItems == st.paymentItems + LedgerItems(items, movies, old(db.nextPaymentId), old(db.nextPaymentItemId))
             && db.nextPaymentItemId == old(db.nextPaymentItemId) + |items|
  {
    if delivery.BadSignature? {
      return Err(HttpError(400, "Invalid signature was provided"));
    }
    if delivery.BadPayload? {
      return Err(HttpError(400, "Invalid payload was provided"));
    }
    var ev := delivery.event;
    var statuses := StatusesFor(ev.kind);
    if statuses.None? {
      return Ok(());
    }
    var orderId := ev.metadata.orderId;
    var items := ItemsOfOrder(db.orderItems, orderId);
    if !OrderExists(db.orders, orderId) || orderId !in profiles {
      return Err(InternalError);
    }
    // first commit: the order's status and the payment
    var paymentId := db.nextPaymentId;
    AppendPayment(db, ev, statuses.value, now);
    // second commit: one payment item per order item
    FilterDistinctKeys(old(db.orderItems), (oi: OrderItem) => oi.orderId == orderId, OrderItemKey);
    r := AppendLedger(db, movies, items, paymentId);
  }

  /** The first commit of the webhook: the order's new status and the new payment. */
  method AppendPayment(db: Db, ev: Event, statuses: (PaymentStatus, OrderStatus), now: int)
    requires db.Valid()
    modifies db`orders, db`payments, db`nextPaymentId
    ensures db.Valid()
    ensures db.State() == RecordPayment(old(db.State()), ev, statuses, old(db.nextPaymentId), now)
    ensures db.nextPaymentId == old(db.nextPaymentId) + 1
  {
    var st1 := RecordPayment(db.State(), ev, statuses, db.nextPaymentId, now);
    RecordPaymentKeepsKeys(db.State(), ev, statuses, db.nextPaymentId, now, db.nextOrderId);
    db.orders, db.payments, db.nextPaymentId := st1.orders, st1.payments, db.nextPaymentId + 1;
  }

  /**
   * The second commit of the webhook: the payment items of `items` for
   * payment `paymentId`, or a failure that changes nothing when a movie is
   * gone or the insert breaks a constraint.
   */
  method AppendLedger(db: Db, movies: map<nat, Movie>, items: seq<OrderItem>, paymentId: nat) returns (r: Result<()>)
    requires db.Valid() && DistinctKeys(items, OrderItemKey)
    modifies db`paymentItems, db`nextPaymentItemId
    ensures db.Valid()
    ensures if (exists oi | oi in items :: oi.movieId !in movies) || !LedgerInsertable(old(db.State()), items) then
        r == Err(InternalError) && unchanged(db)
      else
        r == Ok(())
        && db.paymentItems == old(db.paymentItems) + LedgerItems(items, movies, paymentId, old(db.nextPaymentItemId))
        && db.nextPaymentItemId == old(db.nextPaymentItemId) + |items|
  {
    if (exists oi | oi in items :: oi.movieId !in movies) || !LedgerInsertable(db.State(), items) {
      return Err(InternalError);
    }
    var ledger := LedgerItems(items, movies, paymentId, db.nextPaymentItemId);
    LedgerKeepsKeys(db.State(), items, movies, paymentId, db.nextPaymentItemId);
    db.paymentItems, db.nextPaymentItemId := db.paymentItems + ledger, db.nextPaymentItemId + |ledger|;
    r := Ok(());
  }

  /** The first commit keeps every key unique and below its counter. */
  lemma RecordPaymentKeepsKeys(st: ShopState, ev: Event, statuses: (PaymentStatus, OrderStatus),
                               paymentId: nat, now: int, nextOrderId: nat)
    requires KeysUnique(st) && KeysBelow(st.orders, OrderKey, nextOrderId) && KeysBelow(st.payments, PaymentKey, paymentId)
    ensures var st1 := RecordPayment(st, ev, statuses, paymentId, now);
      KeysUnique(st1) && KeysBelow(st1.orders, OrderKey, nextOrderId) && KeysBelow(st1.payments, PaymentKey, paymentId + 1)
  {
    MapRowsKeepsKeys(st.orders, (o: Order) => if o.id == ev.metadata.orderId then o.(status := statuses.1) else o,
      OrderKey, nextOrderId);
    AppendFreshKey(st.payments, PaymentKey, WebhookPayment(ev, statuses.0, paymentId, now), paymentId);
  }

  /** The second commit keeps both keys of the payment items unique, and ids below the advanced counter. */
  lemma LedgerKeepsKeys(st: ShopState, items: seq<OrderItem>, movies: map<nat, Movie>, paymentId: nat, firstId: nat)
    requires KeysUnique(st) && KeysBelow(st.paymentItems, PaymentItemKey, firstId)
    requires DistinctKeys(items, OrderItemKey) && LedgerInsertable(st, items)
    ensures var ledger := LedgerItems(items, movies, paymentId, firstId);
      KeysUnique(st.(paymentItems := st.paymentItems + ledger))
      && KeysBelow(st.paymentItems + ledger, PaymentItemKey, firstId + |ledger|)
  {
    var ledger := LedgerItems(items, movies, paymentId, firstId);
    AppendConsecutiveKeys(st.paymentItems, ledger, PaymentItemKey, firstId);
    forall i, j | 0 <= i < |st.paymentItems| && 0 <= j < |ledger|
      ensures PaymentItemOrderItem(st.paymentItems[i]) != PaymentItemOrderItem(ledger[j])
    {
      assert items[j] in items;
      assert st.paymentItems[i] in st.paymentItems;
    }
    AppendDisjointKeys(st.paymentItems, ledger, PaymentItemOrderItem);
  }

  /**
   * The recorded payment is credited to the user in the metadata only when
   * that user's profile id happens to equal the order id.
   */
  lemma PaymentCreditedToOrderId(ev: Event, status: PaymentStatus, id: nat, now: int)
    ensures WebhookPayment(ev, status, id, now).userProfileId == ev.metadata.userProfileId
        <==> ev.metadata.orderId == ev.metadata.userProfileId
    ensures WebhookPayment(ev, status, id, now).orderId == ev.metadata.orderId
  {
  }

  /**
   * The ledger is append-only: once a movie has a SUCCESSFUL payment, any
   * later event, a refund included, leaves that signal in place.
   */
  lemma RecordPaymentKeepsPaidByPayment(st: ShopState, ev: Event, statuses: (PaymentStatus, OrderStatus),
                                        paymentId: nat, now: int, movie: nat)
    requires PaidByPayment(st, movie)
    ensures PaidByPayment(RecordPayment(st, ev, statuses, paymentId, now), movie)
  {
    var st1 := RecordPayment(st, ev, statuses, paymentId, now);
    var oi, o, p :| oi in st.orderItems && o in st.orders && p in st.payments
      && oi.movieId == movie && o.id == oi.orderId && p.orderId == o.id && p.status == PaymentSuccessful;
    var k :| 0 <= k < |st.orders| && st.orders[k] == o;
    assert st1.orders[k].id == o.id;
    assert st1.orders[k] in st1.orders;
    assert p in st1.payments;
  }

  /** Payments with external id `ext`. */
  function PaymentsWithExternalId(payments: seq<Payment>, ext: string): (r: seq<Payment>)
    ensures forall p :: p in r <==> p in payments && p.externalPaymentId == ext
  {
    Filter(payments, (p: Payment) => p.externalPaymentId == ext)
  }

  /**
   * No lookup of the event id is made, so delivering the same event twice
   * records two payments with its id.
   */
  lemma ReplayRecordsSecondPayment(st: ShopState, ev: Event, statuses: (PaymentStatus, OrderStatus),
                                   paymentId: nat, now: int, later: int)
    ensures var st2 := RecordPayment(RecordPayment(st, ev, statuses, paymentId, now), ev, statuses, paymentId + 1, later);
      |PaymentsWithExternalId(st2.payments, ev.id)| == |PaymentsWithExternalId(st.payments, ev.id)| + 2
  {
    var p1 := WebhookPayment(ev, statuses.0, paymentId, now);
    var p2 := WebhookPayment(ev, statuses.0, paymentId + 1, later);
    var f := (p: Payment) => p.externalPaymentId == ev.id;
    FilterAppend(st.payments, [p1], f);
    FilterAppend(st.payments + [p1], [p2], f);
    assert Filter([p1], f) == [p1] by { assert [p1][1..] == []; }
    assert Filter([p2], f) == [p2] by { assert [p2][1..] == []; }
  }

  /**
   * Once an order's items are in the ledger, the items of every later
   * event for that order break the UNIQUE constraint: a refund after a
   * completed payment records the refund payment but none of its items.
   */
  lemma SecondEventLedgerRefused(st: ShopState, items: seq<OrderItem>, movies: map<nat, Movie>,
                                 paymentId: nat, firstId: nat, ev: Event, statuses: (PaymentStatus, OrderStatus),
                                 nextPaymentId: nat, now: int)
    requires items != []
    ensures var stLedger := st.(paymentItems := st.paymentItems + LedgerItems(items, movies, paymentId, firstId));
      !LedgerInsertable(RecordPayment(stLedger, ev, statuses, nextPaymentId, now), items)
  {
    var ledger := LedgerItems(items, movies, paymentId, firstId);
    var stLedger := st.(paymentItems := st.paymentItems + ledger);
    var st2 := RecordPayment(stLedger, ev, statuses, nextPaymentId, now);
    assert ledger[0] in st2.paymentItems;
    assert items[0] in items;
  }

  /**
   * Because the foreign key of `order_item_id` points at `orders.id`, the
   * items of order 1 below cannot be recorded: their id 2 names no order.
   */
  lemma LedgerNeedsOrderWithItemId()
    ensures var st := ShopState([], [], [Order(1, 1, 0, OrderPaid, 500)], [OrderItem(2, 1, 7, 500)], [], []);
      !LedgerInsertable(st, st.orderItems)
  {
    var st := ShopState([], [], [Order(1, 1, 0, OrderPaid, 500)], [OrderItem(2, 1, 7, 500)], [], []);
    assert st.orderItems[0] in st.orderItems;
  }

  /**
   * When no movie's price has changed since the order was created, each
   * ledger item's price is its order item's frozen price.
   */
  lemma LedgerAgreesWithOrderWhenPricesUnchanged(items: seq<OrderItem>, movies: map<nat, Movie>, paymentId: nat, firstId: nat)
    requires forall oi | oi in items :: oi.priceAtOrder == PriceOf(movies, oi.movieId)
    ensures var ledger := LedgerItems(items, movies, paymentId, firstId);
      forall i | 0 <= i < |items| :: ledger[i].priceAtPayment == items[i].priceAtOrder
  {
    var ledger := LedgerItems(items, movies, paymentId, firstId);
    forall i | 0 <= i < |items| ensures ledger[i].priceAtPayment == items[i].priceAtOrder {
      assert items[i] in items;
    }
  }
}
