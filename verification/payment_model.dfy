/** The `payments` and `payment_items` tables. */
module PaymentModel {
  import opened Common
  import opened Seqs

  /** `PaymentStatusEnum`. */
  datatype PaymentStatus = PaymentSuccessful | PaymentCanceled | PaymentRefunded

  function PaymentStatusValue(s: PaymentStatus): string
  {
    match s
    case PaymentSuccessful => "SUCCESSFUL"
    case PaymentCanceled => "CANCELED"
    case PaymentRefunded => "REFUNDED"
  }

  /** The status whose value is `v`, if there is one. */
  function ParsePaymentStatus(v: string): (r: Option<PaymentStatus>)
    ensures r.Some? ==> PaymentStatusValue(r.value) == v
    ensures r.None? ==> v != "SUCCESSFUL" && v != "CANCELED" && v != "REFUNDED"
  {
    if v == "SUCCESSFUL" then Some(PaymentSuccessful)
    else if v == "CANCELED" then Some(PaymentCanceled)
    else if v == "REFUNDED" then Some(PaymentRefunded)
    else None
  }

  /** A status string names exactly one status, and each status has exactly one string. */
  lemma PaymentStatusRoundTrip(v: string, s: PaymentStatus)
    ensures ParsePaymentStatus(v) == Some(s) <==> v == PaymentStatusValue(s)
  {
  }

  /** The value the `status` column takes when a row is inserted with `status` unset or set. */
  function InitialPaymentStatus(given: Option<PaymentStatus>): (s: PaymentStatus)
    ensures given.None? ==> s == PaymentSuccessful
    ensures given.Some? ==> s == given.value
  {
    if given.Some? then given.value else PaymentSuccessful
  }

  /**
   * A row of `payments`. `user_profile_id` and `order_id` are NOT NULL;
   * `amount` is DECIMAL(10, 2) held in cents.
   */
  datatype Payment = Payment(
    id: nat,
    userProfileId: nat,
    orderId: nat,
    createdAt: int,
    status: PaymentStatus,
    amount: nat,
    externalPaymentId: string)

  /**
   * A row of `payment_items`. `order_item_id` is UNIQUE and NOT NULL; as
   * declared, its foreign key points at `orders.id`, not at `order_items.id`.
   */
  datatype PaymentItem = PaymentItem(id: nat, paymentId: nat, orderItemId: nat, priceAtPayment: nat)

  function PaymentKey(p: Payment): nat { p.id }
  function PaymentItemKey(pi: PaymentItem): nat { pi.id }
  function PaymentItemOrderItem(pi: PaymentItem): nat { pi.orderItemId }

  /** `payment.payment_items`. */
  function ItemsOfPayment(items: seq<PaymentItem>, paymentId: nat): (r: seq<PaymentItem>)
    ensures forall pi :: pi in r <==> pi in items && pi.paymentId == paymentId
  {
    Filter(items, (pi: PaymentItem) => pi.paymentId == paymentId)
  }

  /**
   * `Payment.count_of_items`, the length of `payment.payment_items`. With
   * the UNIQUE `order_item_id` it is the number of distinct order items the
   * payment covers.
   */
  function CountOfItems(items: seq<PaymentItem>, paymentId: nat): (n: nat)
    requires DistinctKeys(items, PaymentItemOrderItem)
    ensures n == |set pi | pi in items && pi.paymentId == paymentId :: pi.orderItemId|
  {
    var mine := ItemsOfPayment(items, paymentId);
    FilterDistinctKeys(items, (pi: PaymentItem) => pi.paymentId == paymentId, PaymentItemOrderItem);
    DistinctKeysCardinality(mine);
    assert (set pi | pi in items && pi.paymentId == paymentId :: pi.orderItemId)
        == (set pi | pi in mine :: pi.orderItemId);
    |mine|
  }

  /** Rows with pairwise distinct `order_item_id` are as many as their `order_item_id` values. */
  lemma {:induction false} DistinctKeysCardinality(s: seq<PaymentItem>)
    requires DistinctKeys(s, PaymentItemOrderItem)
    ensures |set pi | pi in s :: pi.orderItemId| == |s|
  {
    if s != [] {
      var tail := s[1..];
      assert DistinctKeys(tail, PaymentItemOrderItem) by {
        forall i, j | 0 <= i < j < |tail|
          ensures PaymentItemOrderItem(tail[i]) != PaymentItemOrderItem(tail[j])
        {
          assert tail[i] == s[i + 1] && tail[j] == s[j + 1];
        }
      }
      DistinctKeysCardinality(tail);
      var ids := set pi | pi in tail :: pi.orderItemId;
      assert s[0].orderItemId !in ids by {
        forall k | 0 <= k < |tail| ensures tail[k].orderItemId != s[0].orderItemId {
          assert tail[k] == s[k + 1];
          assert PaymentItemOrderItem(s[0]) != PaymentItemOrderItem(s[k + 1]);
        }
      }
      assert (set pi | pi in s :: pi.orderItemId) == ids + {s[0].orderItemId} by {
        assert forall pi :: pi in s <==> pi == s[0] || pi in tail;
      }
    }
  }
}
