/**
 * Creating a checkout session for an order. The order is looked up, its
 * items are pruned in three passes (movies that no longer exist, movies
 * that occur more than once, movies already bought), its total is
 * recomputed from the current prices, and one line per remaining item is
 * sent to the payment processor together with the metadata the webhook
 * reads back. The processor is an oracle: its reply is a parameter.
 */
module PaymentCheckout {
  import opened Common
  import opened Seqs
  import opened OrderModel
  import opened PaymentModel
  import opened MovieModel
  import opened Shop
  import opened PaymentWebhook

  /** The processor's answer to a session request. */
  datatype ProcessorReply = SessionUrl(url: string) | ProcessorError(message: string)

  /** One line of a session request: a movie's name, its price in cents and a quantity. */
  datatype LineItem = LineItem(name: string, unitAmount: nat, quantity: nat)

  /** What is sent to the processor. */
  datatype SessionRequest = SessionRequest(lineItems: seq<LineItem>, metadata: Metadata)

  /** Order item `itemId` is on an item of a SUCCESSFUL payment, whoever made it. */
  predicate SettledItem(st: ShopState, itemId: nat)
  {
    exists pi, p | pi in st.paymentItems && p in st.payments ::
      pi.orderItemId == itemId && pi.paymentId == p.id && p.status == PaymentSuccessful
  }

  /** Order item `itemId` is on an item of a SUCCESSFUL payment made by `user`. */
  predicate SettledItemOf(st: ShopState, itemId: nat, user: nat)
  {
    exists pi, p | pi in st.paymentItems && p in st.payments ::
      pi.orderItemId == itemId && pi.paymentId == p.id && p.status == PaymentSuccessful && p.userProfileId == user
  }

  /** Order `orderId` has a SUCCESSFUL payment. */
  predicate OrderSettled(st: ShopState, orderId: nat)
  {
    exists p | p in st.payments :: p.orderId == orderId && p.status == PaymentSuccessful
  }

  /**
   * The rows of the checkout's order query: the order joined with each of
   * its items, when the order has no SUCCESSFUL payment, for the items not
   * on one. The requester is not part of the query.
   */
  function CheckoutRows(st: ShopState, orderId: nat): (r: seq<OrderItem>)
    ensures r != [] ==> OrderExists(st.orders, orderId) && !OrderSettled(st, orderId)
    ensures forall oi :: oi in r ==> oi in st.orderItems && oi.orderId == orderId && !SettledItem(st, oi.id)
  {
    if !OrderExists(st.orders, orderId) || OrderSettled(st, orderId) then []
    else Filter(st.orderItems, (oi: OrderItem) => oi.orderId == orderId && !SettledItem(st, oi.id))
  }

  /**
   * The order the checkout works on. No row is OrderDoesNotExistError; more
   * than one row makes the single-row fetch fail.
   */
  function CheckoutOrder(st: ShopState, orderId: nat): (r: Result<Order>)
    ensures r == Err(OrderDoesNotExist) <==> CheckoutRows(st, orderId) == []
    ensures r == Err(InternalError) <==> |CheckoutRows(st, orderId)| > 1
    ensures r.Ok? ==> r.value in st.orders && r.value.id == orderId && !OrderSettled(st, orderId)
    ensures r.Ok? ==> exists oi | oi in st.orderItems :: oi.orderId == orderId && !SettledItem(st, oi.id)
  {
    var rows := CheckoutRows(st, orderId);
    if rows == [] then Err(OrderDoesNotExist)
    else if |rows| > 1 then Err(InternalError)
    else
      assert rows[0] in rows;
      var found := FindFirst(st.orders, (o: Order) => o.id == orderId);
      Ok(found.value)
  }

  /** The movie ids of `items`, in the same order. */
  function MovieIdsOf(items: seq<OrderItem>): (r: seq<nat>)
    ensures |r| == |items|
    ensures forall i | 0 <= i < |r| :: r[i] == items[i].movieId
  {
    if items == [] then [] else [items[0].movieId] + MovieIdsOf(items[1..])
  }

  /** The movie id of an order that passes the order query is never missing: the 404 for an empty id list cannot happen. */
  lemma CheckoutOrderHasMovies(st: ShopState, orderId: nat)
    requires CheckoutOrder(st, orderId).Ok?
    ensures MovieIdsOf(ItemsOfOrder(st.orderItems, orderId)) != []
  {
    var oi :| oi in st.orderItems && oi.orderId == orderId && !SettledItem(st, oi.id);
    assert oi in ItemsOfOrder(st.orderItems, orderId);
  }

  /** Pass 1's list comprehension: the movie ids of the order that name no movie. */
  function StaleMovieIds(ids: seq<nat>, movies: map<nat, Movie>): (r: seq<nat>)
    ensures forall m :: m in r <==> m in ids && m !in movies
  {
    Filter(ids, (m: nat) => m !in movies)
  }

  /** A DELETE of the order items whose id is in `doomed`. */
  function DeleteItemsById(items: seq<OrderItem>, doomed: seq<nat>): (r: seq<OrderItem>)
    ensures forall oi :: oi in r <==> oi in items && oi.id !in doomed
  {
    Filter(items, (oi: OrderItem) => oi.id !in doomed)
  }

  /** `collections.Counter(ids)`: each id that occurs, mapped to its number of occurrences. */
  function Tally(ids: seq<nat>): (c: map<nat, nat>)
    ensures forall m :: m in c <==> m in ids
    ensures forall m | m in c :: c[m] == Count(ids, m)
  {
    if ids == [] then map[]
    else
      var rest := Tally(ids[1..]);
      CountPositive(ids[1..], ids[0]);
      assert forall m :: m in ids <==> m == ids[0] || m in ids[1..];
      rest[ids[0] := (if ids[0] in rest then rest[ids[0]] else 0) + 1]
  }

  /** The distinct ids of `ids` in order of first occurrence: the key order of a Counter. */
  function Distinct(ids: seq<nat>): (r: seq<nat>)
    ensures NoDup(r)
    ensures forall m :: m in r <==> m in ids
  {
    if ids == [] then []
    else
      var init := ids[..|ids| - 1];
      var last := ids[|ids| - 1];
      var d := Distinct(init);
      assert ids == init + [last];
      if last in d then d
      else
        AppendFresh(d, last);
        d + [last]
  }

  /** The ids pass 2 deletes: the keys of the Counter whose count exceeds 1, in key order. */
  function RepeatedIds(ids: seq<nat>): (r: seq<nat>)
  {
    Filter(Distinct(ids), (m: nat) => Count(ids, m) > 1)
  }

  /** Pass 2's loop over the Counter's items. */
  method RepeatedMovieIds(ids: seq<nat>) returns (dups: seq<nat>)
    ensures dups == RepeatedIds(ids)
    ensures NoDup(dups)
    ensures forall m :: m in dups <==> Count(ids, m) > 1
  {
    var counter := Tally(ids);
    var keys := Distinct(ids);
    var repeated := (m: nat) => Count(ids, m) > 1;
    dups := [];
    var k := 0;
    while k < |keys|
      invariant 0 <= k <= |keys|
      invariant dups == Filter(keys[..k], repeated)
    {
      assert keys[..k + 1] == keys[..k] + [keys[k]];
      FilterAppend(keys[..k], [keys[k]], repeated);
      assert Filter([keys[k]], repeated) == if repeated(keys[k]) then [keys[k]] else [] by {
        assert [keys[k]][1..] == [];
      }
      if counter[keys[k]] > 1 {
        dups := dups + [keys[k]];
      }
      k := k + 1;
    }
    assert keys[..k] == keys;
    FilterNoDup(keys, repeated);
    forall m ensures m in dups <==> Count(ids, m) > 1 {
      CountPositive(ids, m);
    }
  }

  /** The movie ids of order items on a SUCCESSFUL payment's items, whoever paid: the list pass 3 reads. */
  function BoughtMovieIds(st: ShopState): (r: seq<nat>)
    ensures forall m :: m in r <==> exists oi | oi in st.orderItems :: oi.movieId == m && SettledItem(st, oi.id)
  {
    var settled := Filter(st.orderItems, (oi: OrderItem) => SettledItem(st, oi.id));
    var r := MovieIdsOf(settled);
    forall m ensures m in r <==> exists oi | oi in st.orderItems :: oi.movieId == m && SettledItem(st, oi.id) {
      if m in r {
        var i :| 0 <= i < |r| && r[i] == m;
        assert settled[i] in settled;
      }
      if exists oi | oi in st.orderItems :: oi.movieId == m && SettledItem(st, oi.id) {
        var oi :| oi in st.orderItems && oi.movieId == m && SettledItem(st, oi.id);
        var i :| 0 <= i < |settled| && settled[i] == oi;
        assert r[i] == m;
      }
    }
    r
  }

  /** Pass 3's loop: the order's movie ids that occur in `bought`, with repetitions, in order. */
  method AlreadyBoughtIds(ids: seq<nat>, bought: seq<nat>) returns (r: seq<nat>)
    ensures r == Filter(ids, (m: nat) => m in bought)
    ensures forall m :: m in r <==> m in ids && m in bought
  {
    var inBought := (m: nat) => m in bought;
    r := [];
    var k := 0;
    while k < |ids|
      invariant 0 <= k <= |ids|
      invariant r == Filter(ids[..k], inBought)
    {
      assert ids[..k + 1] == ids[..k] + [ids[k]];
      FilterAppend(ids[..k], [ids[k]], inBought);
      assert Filter([ids[k]], inBought) == if inBought(ids[k]) then [ids[k]] else [] by {
        assert [ids[k]][1..] == [];
      }
      if ids[k] in bought {
        r := r + [ids[k]];
      }
      k := k + 1;
    }
    assert ids[..k] == ids;
  }

  /** Order `orderId` belongs to `user`. */
  predicate OwnsOrder(orders: seq<Order>, orderId: nat, user: nat)
  {
    exists o | o in orders :: o.id == orderId && o.userProfileId == user
  }

  /**
   * Pass 3's DELETE: the order items, of any order of `user`, whose movie is
   * in `doomed`, except those on a SUCCESSFUL payment made by `user`.
   */
  function DeleteBoughtItems(st: ShopState, user: nat, doomed: seq<nat>): (r: seq<OrderItem>)
    ensures forall oi :: oi in r <==> (oi in st.orderItems
      && !(oi.movieId in doomed && OwnsOrder(st.orders, oi.orderId, user) && !SettledItemOf(st, oi.id, user)))
  {
    Filter(st.orderItems, (oi: OrderItem) =>
      !(oi.movieId in doomed && OwnsOrder(st.orders, oi.orderId, user) && !SettledItemOf(st, oi.id, user)))
  }

  /** The order items after the three passes; `ids` is the order's movie id list read before the first. */
  function PrunedOrderItems(st: ShopState, movies: map<nat, Movie>, user: nat, ids: seq<nat>): seq<OrderItem>
  {
    var afterStale := DeleteItemsById(st.orderItems, StaleMovieIds(ids, movies));
    var afterRepeated := DeleteItemsById(afterStale, RepeatedIds(ids));
    var st2 := st.(orderItems := afterRepeated);
    DeleteBoughtItems(st2, user, Filter(ids, (m: nat) => m in BoughtMovieIds(st2)))
  }

  /** Deleting rows keeps the order items' keys unique and below their counter. */
  lemma DeleteKeepsValid(st: ShopState, items: seq<OrderItem>, p: OrderItem -> bool, bound: nat)
    requires KeysUnique(st) && KeysBelow(st.orderItems, OrderItemKey, bound)
    requires items == Filter(st.orderItems, p)
    ensures KeysUnique(st.(orderItems := items)) && KeysBelow(items, OrderItemKey, bound)
  {
    FilterDistinctKeys(st.orderItems, p, OrderItemKey);
    FilterKeysBelow(st.orderItems, p, OrderItemKey, bound);
  }

  /** The three pruning passes, each committed on its own. */
  method PruneOrderItems(db: Db, movies: map<nat, Movie>, user: nat, ids: seq<nat>)
    requires db.Valid()
    modifies db`orderItems
    ensures db.Valid()
    ensures db.orderItems == PrunedOrderItems(old(db.State()), movies, user, ids)
  {
    PruneStale(db, movies, ids);
    PruneRepeated(db, ids);
    PruneBought(db, user, ids);
  }

  /** Pass 1: delete the order items whose id is a movie id of the order that names no movie. */
  method PruneStale(db: Db, movies: map<nat, Movie>, ids: seq<nat>)
    requires db.Valid()
    modifies db`orderItems
    ensures db.Valid()
    ensures db.orderItems == DeleteItemsById(old(db.orderItems), StaleMovieIds(ids, movies))
  {
    var stale := StaleMovieIds(ids, movies);
    if stale != [] {
      DeleteKeepsValid(db.State(), DeleteItemsById(db.orderItems, stale), (oi: OrderItem) => oi.id !in stale, db.nextOrderItemId);
      db.orderItems := DeleteItemsById(db.orderItems, stale);
    } else {
      FilterAll(db.orderItems, (oi: OrderItem) => oi.id !in stale);
    }
  }

  /** Pass 2: delete the order items whose id is a movie id occurring more than once in the order. */
  method PruneRepeated(db: Db, ids: seq<nat>)
    requires db.Valid()
    modifies db`orderItems
    ensures db.Valid()
    ensures db.orderItems == DeleteItemsById(old(db.orderItems), RepeatedIds(ids))
  {
    var dups := RepeatedMovieIds(ids);
    if dups != [] {
      DeleteKeepsValid(db.State(), DeleteItemsById(db.orderItems, dups), (oi: OrderItem) => oi.id !in dups, db.nextOrderItemId);
      db.orderItems := DeleteItemsById(db.orderItems, dups);
    } else {
      FilterAll(db.orderItems, (oi: OrderItem) => oi.id !in dups);
    }
  }

  /** Pass 3: delete the requester's order items for movies of the order that someone already bought. */
  method PruneBought(db: Db, user: nat, ids: seq<nat>)
    requires db.Valid()
    modifies db`orderItems
    ensures db.Valid()
    ensures db.orderItems == DeleteBoughtItems(old(db.State()), user, Filter(ids, (m: nat) => m in BoughtMovieIds(old(db.State()))))
  {
    var st := db.State();
    var bought := AlreadyBoughtIds(ids, BoughtMovieIds(st));
    var kept := (oi: OrderItem) =>
      !(oi.movieId in bought && OwnsOrder(st.orders, oi.orderId, user) && !SettledItemOf(st, oi.id, user));
    if bought != [] {
      DeleteKeepsValid(st, DeleteBoughtItems(st, user, bought), kept, db.nextOrderItemId);
      db.orderItems := DeleteBoughtItems(st, user, bought);
    } else {
      FilterAll(db.orderItems, kept);
    }
  }

  /** `orders` with the total of order `orderId` set to `total`. */
  function WithOrderTotal(orders: seq<Order>, orderId: nat, total: nat): seq<Order>
  {
    MapRows(orders, (o: Order) => if o.id == orderId then o.(totalAmount := total) else o)
  }

  /** The line sent for a movie: its name, its price in cents and quantity 1. */
  function LineItemFor(m: Movie): (l: LineItem)
    ensures l.quantity == 1 && l.unitAmount == m.price
  {
    LineItem(m.name, m.price, 1)
  }

  /** What a line charges. */
  function LineAmount(l: LineItem): nat
  {
    l.unitAmount * l.quantity
  }

  /** The current price of an order item's movie. */
  function ItemPrice(movies: map<nat, Movie>): OrderItem -> nat
  {
    (oi: OrderItem) => PriceOf(movies, oi.movieId)
  }

  /** Adding the line of the next item keeps the lines charging what the items cost so far. */
  lemma LineSumStep(lines: seq<LineItem>, items: seq<OrderItem>, k: nat, movies: map<nat, Movie>)
    requires k < |items| && items[k].movieId in movies
    requires SumOf(lines, LineAmount) == SumOf(items[..k], ItemPrice(movies))
    ensures SumOf(lines + [LineItemFor(movies[items[k].movieId])], LineAmount) == SumOf(items[..k + 1], ItemPrice(movies))
  {
    var line := LineItemFor(movies[items[k].movieId]);
    SumOfAppend(lines, [line], LineAmount);
    assert items[..k + 1] == items[..k] + [items[k]];
    SumOfAppend(items[..k], [items[k]], ItemPrice(movies));
    assert SumOf([line], LineAmount) == LineAmount(line) by { assert [line][1..] == []; }
    assert SumOf([items[k]], ItemPrice(movies)) == PriceOf(movies, items[k].movieId) by { assert [items[k]][1..] == []; }
  }

  /** The loop building the line items: one per item, charging in all the items' current total. */
  method BuildLineItems(items: seq<OrderItem>, movies: map<nat, Movie>) returns (lines: seq<LineItem>)
    requires forall oi | oi in items :: oi.movieId in movies
    ensures |lines| == |items|
    ensures forall i | 0 <= i < |items| :: lines[i] == LineItemFor(movies[items[i].movieId])
    ensures SumOf(lines, LineAmount) == SumOf(items, ItemPrice(movies))
  {
    lines := [];
    var k := 0;
    while k < |items|
      invariant 0 <= k <= |items|
      invariant |lines| == k
      invariant forall i | 0 <= i < k :: lines[i] == LineItemFor(movies[items[i].movieId])
      invariant SumOf(lines, LineAmount) == SumOf(items[..k], ItemPrice(movies))
    {
      assert items[k] in items;
      var line := LineItemFor(movies[items[k].movieId]);
      LineSumStep(lines, items, k, movies);
      lines := lines + [line];
      k := k + 1;
    }
    assert items[..k] == items;
  }

  /** The processor's reply as the endpoint's result. */
  function ReplyResult(reply: ProcessorReply): (r: Result<string>)
    ensures reply.SessionUrl? <==> r.Ok?
    ensures r.Ok? ==> r.value == reply.url
    ensures r.Err? ==> r.error == HttpError(400, reply.message)
  {
    match reply
    case SessionUrl(url) => Ok(url)
    case ProcessorError(message) => Err(HttpError(400, message))
  }

  /**
   * `stripe_checkout_session`. Every pass commits, so the pruning stays in
   * place whatever follows. The requester is not checked against the
   * order's owner.
   */
  method StripeCheckoutSession(db: Db, movies: map<nat, Movie>, user: nat, orderId: nat, reply: ProcessorReply)
    returns (r: Result<string>, request: Option<SessionRequest>)
    requires db.Valid()
    modifies db`orderItems, db`orders
    ensures db.Valid()
    ensures CheckoutOrder(old(db.State()), orderId).Err? ==>
      r == Err(CheckoutOrder(old(db.State()), orderId).error) && request.None? && unchanged(db)
    ensures CheckoutOrder(old(db.State()), orderId).Ok? ==>
      var ids := MovieIdsOf(ItemsOfOrder(old(db.orderItems), orderId));
      db.orderItems == PrunedOrderItems(old(db.State()), movies, user, ids)
      && SessionSent(old(db.orders), db.orders, movies, user, CheckoutOrder(old(db.State()), orderId).value,
                     ItemsOfOrder(db.orderItems, orderId), reply, r, request)
  {
    var found := CheckoutOrder(db.State(), orderId);
    if found.Err? {
      return Err(found.error), None;
    }
    var ids := MovieIdsOf(ItemsOfOrder(db.orderItems, orderId));
    CheckoutOrderHasMovies(db.State(), orderId);
    assert ids != [];
    ghost var orders0 := db.orders;
    var o := found.value;
    assert o.id == orderId;
    PruneOrderItems(db, movies, user, ids);
    assert db.orders == orders0;
    r, request := ChargeOrder(db, movies, user, o, reply);
  }

  /**
   * What follows the pruning, for order `o` whose remaining items are
   * `kept`: an item whose movie is gone makes the total fail; otherwise the
   * total is reset when it differs from the current prices, an order left
   * without items is a 400, and the request is sent with the requester's
   * id, the order id and the new total as metadata, its lines charging
   * that total.
   */
  ghost predicate SessionSent(ordersBefore: seq<Order>, ordersAfter: seq<Order>, movies: map<nat, Movie>, user: nat,
                              o: Order, kept: seq<OrderItem>, reply: ProcessorReply,
                              r: Result<string>, request: Option<SessionRequest>)
  {
    if exists oi | oi in kept :: oi.movieId !in movies then
      r == Err(InternalError) && request.None? && ordersAfter == ordersBefore
    else
      var total := SumOf(kept, ItemPrice(movies));
      ordersAfter == (if o.totalAmount != total then WithOrderTotal(ordersBefore, o.id, total) else ordersBefore)
      && if kept == [] then
           r == Err(HttpError(400, "Order is empty.")) && request.None?
         else
           request.Some? && request.value.metadata == Metadata(user, o.id, total)
           && |request.value.lineItems| == |kept|
           && (forall i | 0 <= i < |kept| :: request.value.lineItems[i] == LineItemFor(movies[kept[i].movieId]))
           && SumOf(request.value.lineItems, LineAmount) == request.value.metadata.totalAmount
           && r == ReplyResult(reply)
  }

  /** The total recompute, the line items and the processor call, after the pruning. */
  method ChargeOrder(db: Db, movies: map<nat, Movie>, user: nat, o: Order, reply: ProcessorReply)
    returns (r: Result<string>, request: Option<SessionRequest>)
    requires db.Valid()
    modifies db`orders
    ensures db.Valid()
    ensures SessionSent(old(db.orders), db.orders, movies, user, o, ItemsOfOrder(db.orderItems, o.id), reply, r, request)
  {
    var kept := ItemsOfOrder(db.orderItems, o.id);
    if exists oi | oi in kept :: oi.movieId !in movies {
      return Err(InternalError), None;
    }
    var total := SumOf(kept, ItemPrice(movies));
    if o.totalAmount != total {
      MapRowsKeepsKeys(db.orders, (x: Order) => if x.id == o.id then x.(totalAmount := total) else x,
        OrderKey, db.nextOrderId);
      db.orders := WithOrderTotal(db.orders, o.id, total);
    }
    var lines := BuildLineItems(kept, movies);
    if lines == [] {
      return Err(HttpError(400, "Order is empty.")), None;
    }
    request := Some(SessionRequest(lines, Metadata(user, o.id, total)));
    r := ReplyResult(reply);
  }

  /**
   * The order query yields one row per unpaid item, and the single-row
   * fetch fails on two: an order with two unpaid items cannot be checked out.
   */
  lemma TwoUnpaidItemsFailCheckout()
    ensures var st := ShopState([], [], [Order(1, 1, 0, OrderPending, 300)],
                                [OrderItem(1, 1, 5, 100), OrderItem(2, 1, 6, 200)], [], []);
      CheckoutOrder(st, 1) == Err(InternalError)
  {
    var st := ShopState([], [], [Order(1, 1, 0, OrderPending, 300)],
                        [OrderItem(1, 1, 5, 100), OrderItem(2, 1, 6, 200)], [], []);
    assert st.orders[0] in st.orders;
    assert CheckoutRows(st, 1) == st.orderItems;
  }

  /**
   * Pass 1 compares order item ids with movie ids: with movie 3 gone, it
   * deletes order 2's item whose id is 3 and keeps order 1's item for
   * movie 3.
   */
  lemma StalePassDeletesByItemId()
    ensures var items := [OrderItem(1, 1, 3, 100), OrderItem(3, 2, 7, 100)];
      var movies := map[7 := Movie("m", 2000, 90, None, 7.0, 0, None, None, "", 100, None, {}, {}, {})];
      DeleteItemsById(items, StaleMovieIds(MovieIdsOf(ItemsOfOrder(items, 1)), movies)) == [OrderItem(1, 1, 3, 100)]
  {
    var items := [OrderItem(1, 1, 3, 100), OrderItem(3, 2, 7, 100)];
    var movies := map[7 := Movie("m", 2000, 90, None, 7.0, 0, None, None, "", 100, None, {}, {}, {})];
    assert ItemsOfOrder(items, 1) == [items[0]];
    assert MovieIdsOf([items[0]]) == [3];
    assert StaleMovieIds([3], movies) == [3];
  }

  /**
   * Pass 2 compares order item ids with movie ids too: for an order holding
   * movie 5 twice, it deletes another order's item whose id is 5 and keeps
   * both copies.
   */
  lemma RepeatedPassDeletesByItemId()
    ensures var items := [OrderItem(1, 1, 5, 100), OrderItem(2, 1, 5, 100), OrderItem(5, 2, 9, 100)];
      DeleteItemsById(items, RepeatedIds(MovieIdsOf(ItemsOfOrder(items, 1)))) == items[..2]
  {
    var items := [OrderItem(1, 1, 5, 100), OrderItem(2, 1, 5, 100), OrderItem(5, 2, 9, 100)];
    assert ItemsOfOrder(items, 1) == items[..2];
    assert MovieIdsOf(items[..2]) == [5, 5];
    RepeatedIdsOfPair();
    var keep := (oi: OrderItem) => oi.id !in [5];
    assert Filter(items[2..], keep) == [] by { assert items[2..][1..] == []; }
    assert Filter(items[1..], keep) == [items[1]] by { assert items[1..][1..] == items[2..]; }
  }

  lemma RepeatedIdsOfPair()
    ensures RepeatedIds([5, 5]) == [5]
  {
    assert Distinct([5]) == [5] by { assert [5][..0] == []; }
    assert Distinct([5, 5]) == [5] by { assert [5, 5][..1] == [5]; }
    assert Count([5, 5], 5) == 2 by {
      assert [5, 5][1..] == [5];
      assert [5][1..] == [];
    }
    assert [5][1..] == [];
  }
}
