/**
 * The subqueries that decide whether a movie counts as bought. Two signals
 * exist: the status of an order of the user, and a SUCCESSFUL payment row.
 * The listing and order code combine them differently from the add-to-cart
 * code; the lemmas below say how.
 */
module PaidSignals {
  import opened Shop
  import opened CartModel
  import opened OrderModel
  import opened PaymentModel

  /** `movie` is on an order item whose order belongs to `user` and is PAID. */
  predicate PaidByOrder(st: ShopState, user: nat, movie: nat)
  {
    exists oi, o | oi in st.orderItems && o in st.orders ::
      oi.movieId == movie && o.id == oi.orderId && o.userProfileId == user && o.status == OrderPaid
  }

  /**
   * `movie` is on an order item whose order has a SUCCESSFUL payment. The
   * subquery does not restrict the order or the payment to any user.
   */
  predicate PaidByPayment(st: ShopState, movie: nat)
  {
    exists oi, o, p | oi in st.orderItems && o in st.orders && p in st.payments ::
      oi.movieId == movie && o.id == oi.orderId && p.orderId == o.id && p.status == PaymentSuccessful
  }

  /** The pair of negated subqueries used by the cart listing and by order creation. */
  predicate Unpaid(st: ShopState, user: nat, movie: nat)
  {
    !PaidByOrder(st, user, movie) && !PaidByPayment(st, movie)
  }

  /** The pair of subqueries used by the purchased-items listing. */
  predicate Purchased(st: ShopState, user: nat, movie: nat)
  {
    PaidByOrder(st, user, movie) && PaidByPayment(st, movie)
  }

  /**
   * The purchased set of `cart_add_item`: a movie of a PAID order of the
   * acting user that also has a SUCCESSFUL payment made by the acting user.
   * The extra criterion on the owner of the target cart brings `cart_items`
   * into the FROM list, so the set is empty unless the target owner has at
   * least one item in a cart.
   */
  predicate PurchasedForAdd(st: ShopState, actingUser: nat, cartOwner: nat, movie: nat)
  {
    (exists ci, c | ci in st.cartItems && c in st.carts :: c.id == ci.cartId && c.userProfileId == cartOwner)
    && exists oi, o, p | oi in st.orderItems && o in st.orders && p in st.payments ::
      oi.movieId == movie && o.id == oi.orderId && o.userProfileId == actingUser && o.status == OrderPaid
      && p.orderId == o.id && p.userProfileId == actingUser && p.status == PaymentSuccessful
  }

  /** The add-time signal implies both listing signals for the acting user. */
  lemma PurchasedForAddImpliesPurchased(st: ShopState, actingUser: nat, cartOwner: nat, movie: nat)
    requires PurchasedForAdd(st, actingUser, cartOwner, movie)
    ensures Purchased(st, actingUser, movie)
  {
    var oi, o, p :| oi in st.orderItems && o in st.orders && p in st.payments
      && oi.movieId == movie && o.id == oi.orderId && o.userProfileId == actingUser && o.status == OrderPaid
      && p.orderId == o.id && p.userProfileId == actingUser && p.status == PaymentSuccessful;
    assert PaidByOrder(st, actingUser, movie);
    assert PaidByPayment(st, movie);
  }

  /** No movie is both unpaid and purchased. */
  lemma UnpaidAndPurchasedDisjoint(st: ShopState, user: nat, movie: nat)
    ensures !(Unpaid(st, user, movie) && Purchased(st, user, movie))
  {
  }

  /**
   * The two listings split the movies of a cart between them exactly when
   * the two signals agree on the movie.
   */
  lemma ListingsPartitionIffSignalsAgree(st: ShopState, user: nat, movie: nat)
    ensures (Unpaid(st, user, movie) || Purchased(st, user, movie))
        <==> (PaidByOrder(st, user, movie) <==> PaidByPayment(st, movie))
  {
  }

  /**
   * The converse of `PurchasedForAddImpliesPurchased` fails: below, user 1
   * has a PAID order for movie 7 and another user paid for movie 7, so the
   * purchased listing of user 1 shows movie 7 while adding movie 7 to user
   * 1's non-empty cart is not refused as purchased.
   */
  lemma PurchasedListingIsWiderThanAddCheck()
    ensures var st := ShopState(
              [Cart(1, 1)],
              [CartItem(1, 3)],
              [Order(1, 1, 0, OrderPaid, 500), Order(2, 2, 0, OrderPaid, 500)],
              [OrderItem(1, 1, 7, 500), OrderItem(2, 2, 7, 500)],
              [Payment(1, 2, 2, 0, PaymentSuccessful, 500, "evt")],
              []);
            Purchased(st, 1, 7) && !PurchasedForAdd(st, 1, 1, 7)
  {
    var st := ShopState(
      [Cart(1, 1)],
      [CartItem(1, 3)],
      [Order(1, 1, 0, OrderPaid, 500), Order(2, 2, 0, OrderPaid, 500)],
      [OrderItem(1, 1, 7, 500), OrderItem(2, 2, 7, 500)],
      [Payment(1, 2, 2, 0, PaymentSuccessful, 500, "evt")],
      []);
    assert PaidByOrder(st, 1, 7) by {
      assert st.orderItems[0] in st.orderItems && st.orders[0] in st.orders;
    }
    assert PaidByPayment(st, 7) by {
      assert st.orderItems[1] in st.orderItems && st.orders[1] in st.orders && st.payments[0] in st.payments;
    }
  }

  /**
   * The payment signal is shared by all users: once anyone has a
   * SUCCESSFUL payment for an order holding movie 7, movie 7 is no longer
   * unpaid for user 1, who never bought it.
   */
  lemma AnotherUsersPaymentHidesMovie()
    ensures var st := ShopState(
              [Cart(1, 1)],
              [CartItem(1, 7)],
              [Order(2, 2, 0, OrderPaid, 500)],
              [OrderItem(2, 2, 7, 500)],
              [Payment(1, 2, 2, 0, PaymentSuccessful, 500, "evt")],
              []);
            !PaidByOrder(st, 1, 7) && !Unpaid(st, 1, 7)
  {
    var st := ShopState(
      [Cart(1, 1)],
      [CartItem(1, 7)],
      [Order(2, 2, 0, OrderPaid, 500)],
      [OrderItem(2, 2, 7, 500)],
      [Payment(1, 2, 2, 0, PaymentSuccessful, 500, "evt")],
      []);
    assert st.orderItems[0] in st.orderItems && st.orders[0] in st.orders && st.payments[0] in st.payments;
  }
}
