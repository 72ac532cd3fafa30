/** The `carts` and `cart_items` tables. */
module CartModel {
  import opened Seqs

  /** A row of `carts`; `user_profile_id` is UNIQUE, so a profile has at most one cart. */
  datatype Cart = Cart(id: nat, userProfileId: nat)

  /**
   * A row of `cart_items`. The pair (cart_id, movie_id) is UNIQUE, so the
   * table is kept without duplicate rows; the surrogate id and `added_at`
   * play no part in any operation and are not kept.
   */
  datatype CartItem = CartItem(cartId: nat, movieId: nat)

  function CartKey(c: Cart): nat { c.id }
  function CartOwner(c: Cart): nat { c.userProfileId }

  /** The UNIQUE constraints of both tables. */
  predicate CartTablesUnique(carts: seq<Cart>, items: seq<CartItem>)
  {
    DistinctKeys(carts, CartKey) && DistinctKeys(carts, CartOwner) && NoDup(items)
  }

  /** `cart.cart_items`. */
  function ItemsOfCart(items: seq<CartItem>, cartId: nat): (r: seq<CartItem>)
    ensures forall ci :: ci in r <==> ci in items && ci.cartId == cartId
  {
    Filter(items, (ci: CartItem) => ci.cartId == cartId)
  }

  /**
   * `Cart.count_of_all_items_in_cart`: the length of `cart.cart_items`.
   * Since (cart, movie) is unique this is the number of distinct movies in the cart.
   */
  function CountOfAllItemsInCart(items: seq<CartItem>, cartId: nat): (n: nat)
    requires NoDup(items)
    ensures n == |set ci | ci in items && ci.cartId == cartId :: ci.movieId|
  {
    var mine := ItemsOfCart(items, cartId);
    FilterNoDup(items, (ci: CartItem) => ci.cartId == cartId);
    NoDupCardinality(mine);
    MoviesOfOneCart(mine, cartId);
    assert (set ci | ci in items && ci.cartId == cartId :: ci.movieId) == (set ci | ci in mine :: ci.movieId);
    |mine|
  }

  /** Within one cart, rows and movie ids are in one-to-one correspondence. */
  lemma MoviesOfOneCart(mine: seq<CartItem>, cartId: nat)
    requires forall ci :: ci in mine ==> ci.cartId == cartId
    ensures |set ci | ci in mine :: ci.movieId| == |set ci | ci in mine|
  {
    var rows := set ci | ci in mine;
    var movies := set ci | ci in mine :: ci.movieId;
    var back := set m | m in movies :: CartItem(cartId, m);
    assert back == rows;
    CardinalityOfInjectiveImage(movies, cartId);
  }

  lemma {:induction false} CardinalityOfInjectiveImage(movies: set<nat>, cartId: nat)
    ensures |set m | m in movies :: CartItem(cartId, m)| == |movies|
  {
    if movies != {} {
      var m :| m in movies;
      var rest := movies - {m};
      CardinalityOfInjectiveImage(rest, cartId);
      assert (set x | x in movies :: CartItem(cartId, x))
          == (set x | x in rest :: CartItem(cartId, x)) + {CartItem(cartId, m)};
    }
  }
}
