/**
 * The purchase tables of one database: carts, orders and payments with
 * their items. Each table is a sequence of rows in insertion order, and
 * each integer primary key has the next value of its autoincrement counter.
 */
module Shop {
  import opened Seqs
  import opened CartModel
  import opened OrderModel
  import opened PaymentModel

  /** A snapshot of the purchase tables, which the read-only queries work on. */
  datatype ShopState = ShopState(
    carts: seq<Cart>,
    cartItems: seq<CartItem>,
    orders: seq<Order>,
    orderItems: seq<OrderItem>,
    payments: seq<Payment>,
    paymentItems: seq<PaymentItem>)

  /** The primary keys and UNIQUE columns of the purchase tables. */
  predicate KeysUnique(st: ShopState)
  {
    CartTablesUnique(st.carts, st.cartItems)
    && DistinctKeys(st.orders, OrderKey)
    && DistinctKeys(st.orderItems, OrderItemKey)
    && DistinctKeys(st.payments, PaymentKey)
    && DistinctKeys(st.paymentItems, PaymentItemKey)
    && DistinctKeys(st.paymentItems, PaymentItemOrderItem)
  }

  class Db {
    var carts: seq<Cart>
    var cartItems: seq<CartItem>
    var orders: seq<Order>
    var orderItems: seq<OrderItem>
    var payments: seq<Payment>
    var paymentItems: seq<PaymentItem>
    var nextCartId: nat
    var nextOrderId: nat
    var nextOrderItemId: nat
    var nextPaymentId: nat
    var nextPaymentItemId: nat

    function State(): (st: ShopState)
      reads this
    {
      ShopState(carts, cartItems, orders, orderItems, payments, paymentItems)
    }

    /** Keys are unique and lie below their counters, so the next id is always fresh. */
    ghost predicate Valid()
      reads this
    {
      KeysUnique(State())
      && KeysBelow(carts, CartKey, nextCartId)
      && KeysBelow(orders, OrderKey, nextOrderId)
      && KeysBelow(orderItems, OrderItemKey, nextOrderItemId)
      && KeysBelow(payments, PaymentKey, nextPaymentId)
      && KeysBelow(paymentItems, PaymentItemKey, nextPaymentItemId)
    }

    constructor ()
      ensures Valid()
      ensures State() == ShopState([], [], [], [], [], [])
    {
      carts, cartItems, orders, orderItems, payments, paymentItems := [], [], [], [], [], [];
      nextCartId, nextOrderId, nextOrderItemId, nextPaymentId, nextPaymentItemId := 1, 1, 1, 1, 1;
    }
  }

  /** The row of `s` that satisfies `p`, when there is one: `scalar_one_or_none()` after a filter. */
  function FindFirst<T(!new)>(s: seq<T>, p: T -> bool): (r: Common.Option<T>)
    ensures r.Some? ==> r.value in s && p(r.value)
    ensures r.None? ==> forall x :: x in s ==> !p(x)
  {
    if s == [] then Common.None
    else if p(s[0]) then Common.Some(s[0])
    else FindFirst(s[1..], p)
  }

  /** With a unique key, the row a key lookup finds is the only row with that key. */
  lemma {:induction false} FindByKeyUnique<T(!new)>(s: seq<T>, key: T -> nat, k: nat, x: T)
    requires DistinctKeys(s, key)
    requires x in s && key(x) == k
    ensures FindFirst(s, (y: T) => key(y) == k) == Common.Some(x)
  {
    var r := FindFirst(s, (y: T) => key(y) == k);
    assert r.Some?;
    var i :| 0 <= i < |s| && s[i] == x;
    var j :| 0 <= j < |s| && s[j] == r.value;
    assert forall a, b | 0 <= a < |s| && 0 <= b < |s| && key(s[a]) == key(s[b]) :: a == b;
    assert i == j;
  }
}
