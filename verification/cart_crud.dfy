/**
 * The cart operations: adding and removing a movie (the requester's own
 * cart, or any cart for moderators and admins), the two listings of the
 * requester's cart, and the admin views.
 */
module CartCrud {
  import opened Common
  import opened Seqs
  import opened Text
  import opened CartModel
  import opened MovieModel
  import opened Shop
  import opened PaidSignals

  /** `user_profile.cart`: the one cart whose owner is `user`, if any. */
  function CartOfUser(carts: seq<Cart>, user: nat): (r: Option<Cart>)
    ensures r.Some? ==> r.value in carts && r.value.userProfileId == user
    ensures r.None? ==> forall c :: c in carts ==> c.userProfileId != user
  {
    FindFirst(carts, (c: Cart) => c.userProfileId == user)
  }

  /** The cart with primary key `id`, if any. */
  function CartById(carts: seq<Cart>, id: Option<nat>): (r: Option<Cart>)
    ensures r.Some? ==> r.value in carts && id == Some(r.value.id)
    ensures r.None? ==> forall c :: c in carts ==> id != Some(c.id)
  {
    FindFirst(carts, (c: Cart) => id == Some(c.id))
  }

  /** The item belongs to a cart owned by `user`: `CartItem.cart.has(Cart.user_profile_id == user)`. */
  predicate InCartOf(carts: seq<Cart>, ci: CartItem, user: nat)
  {
    exists c | c in carts :: c.id == ci.cartId && c.userProfileId == user
  }

  /**
   * The cart table after the first step of `cart_add_item`: a profile
   * without a cart gets one new cart, keyed by the next id.
   */
  function EnsureCart(carts: seq<Cart>, nextId: nat, user: nat): (r: (seq<Cart>, nat))
    ensures CartOfUser(r.0, user).Some?
    ensures carts <= r.0 && |r.0| <= |carts| + 1
    ensures CartOfUser(carts, user).Some? ==> r == (carts, nextId)
    ensures forall c :: c in r.0 && c !in carts ==> c == Cart(nextId, user)
  {
    if CartOfUser(carts, user).Some? then (carts, nextId)
    else
      var carts' := carts + [Cart(nextId, user)];
      assert carts'[|carts|] in carts';
      (carts', nextId + 1)
  }

  /** Creating the cart keeps both keys of the cart table unique and below the counter. */
  lemma EnsureCartKeepsKeys(carts: seq<Cart>, nextId: nat, user: nat)
    requires DistinctKeys(carts, CartKey) && DistinctKeys(carts, CartOwner)
    requires KeysBelow(carts, CartKey, nextId)
    ensures var (carts', next') := EnsureCart(carts, nextId, user);
      DistinctKeys(carts', CartKey) && DistinctKeys(carts', CartOwner) && KeysBelow(carts', CartKey, next')
  {
    if CartOfUser(carts, user).None? {
      AppendFreshKey(carts, CartKey, Cart(nextId, user), nextId);
      AppendDistinctKey(carts, CartOwner, Cart(nextId, user));
    }
  }

  /**
   * The cart an add acts on: a base-role requester always gets its own
   * cart, whatever `user_cart_id` says; others get the cart `user_cart_id`.
   */
  function TargetCart(carts: seq<Cart>, who: Requester, userCartId: Option<nat>): (r: Option<Cart>)
    ensures IsBaseRole(who.role) ==> r == CartOfUser(carts, who.profileId)
    ensures !IsBaseRole(who.role) ==> r == CartById(carts, userCartId)
  {
    if IsBaseRole(who.role) then CartOfUser(carts, who.profileId) else CartById(carts, userCartId)
  }

  /** A base-role requester always acts on its own cart once `EnsureCart` has run. */
  lemma BaseRoleAddsToOwnCart(carts: seq<Cart>, nextId: nat, who: Requester, userCartId: Option<nat>)
    requires IsBaseRole(who.role)
    ensures var target := TargetCart(EnsureCart(carts, nextId, who.profileId).0, who, userCartId);
      target.Some? && target.value.userProfileId == who.profileId
  {
  }

  /**
   * The decision of `cart_add_item` once the cart table has been completed:
   * no target cart is an unhandled attribute error; a movie already in the
   * target cart or bought (in the add-time sense) is refused; otherwise
   * the item to insert.
   */
  function AddItemOutcome(st: ShopState, who: Requester, movieId: nat, userCartId: Option<nat>): (r: Result<CartItem>)
    ensures TargetCart(st.carts, who, userCartId).None? <==> r == Err(InternalError)
    ensures r.Ok? ==> r.value.movieId == movieId && r.value !in st.cartItems
    ensures r.Ok? ==> r.value.cartId == TargetCart(st.carts, who, userCartId).value.id
    ensures r.Ok? ==> !PurchasedForAdd(st, who.profileId, TargetCart(st.carts, who, userCartId).value.userProfileId, movieId)
    ensures r == Err(MovieAlreadyIsPurchasedOrInCart) <==>
      (TargetCart(st.carts, who, userCartId).Some?
       && var c := TargetCart(st.carts, who, userCartId).value;
          CartItem(c.id, movieId) in st.cartItems || PurchasedForAdd(st, who.profileId, c.userProfileId, movieId))
  {
    match TargetCart(st.carts, who, userCartId)
    case None => Err(InternalError)
    case Some(c) =>
      if CartItem(c.id, movieId) in st.cartItems || PurchasedForAdd(st, who.profileId, c.userProfileId, movieId)
      then Err(MovieAlreadyIsPurchasedOrInCart)
      else Ok(CartItem(c.id, movieId))
  }

  /**
   * `cart_add_item`. A missing movie is refused before anything is
   * written. A requester without a cart gets one, committed on its own;
   * the item insert then either succeeds or is rolled back, which leaves
   * the new cart in place.
   */
  method CartAddItem(db: Db, movies: map<nat, Movie>, who: Requester, movieId: nat, userCartId: Option<nat>)
    returns (r: Result<string>)
    requires db.Valid()
    modifies db`carts, db`nextCartId, db`cartItems
    ensures db.Valid()
    ensures movieId !in movies ==> r == Err(MovieNotFound) && db.State() == old(db.State())
    ensures movieId in movies ==>
      (db.carts, db.nextCartId) == EnsureCart(old(db.carts), old(db.nextCartId), who.profileId)
    ensures movieId in movies ==>
      var outcome := AddItemOutcome(old(db.State()).(carts := db.carts), who, movieId, userCartId);
      match outcome
      case Ok(item) => r == Ok("Item was successfully added") && db.cartItems == old(db.cartItems) + [item]
      case Err(e) => r == Err(e) && db.cartItems == old(db.cartItems)
  {
    if movieId !in movies {
      return Err(MovieNotFound);
    }
    ghost var st := db.State();
    EnsureCartKeepsKeys(db.carts, db.nextCartId, who.profileId);
    var (carts, nextCartId) := EnsureCart(db.carts, db.nextCartId, who.profileId);
    db.carts, db.nextCartId := carts, nextCartId;
    assert db.State() == st.(carts := carts);
    var outcome := AddItemOutcome(db.State(), who, movieId, userCartId);
    match outcome {
      case Ok(item) =>
        AppendFresh(db.cartItems, item);
        db.cartItems := db.cartItems + [item];
        r := Ok("Item was successfully added");
      case Err(e) =>
        r := Err(e);
    }
  }

  /**
   * The item `cart_remove_item` deletes. Without `user_cart_id` (absent
   * or 0) it is the requester's item for the movie; with it, base-role
   * requesters are refused and others get the movie's item in that cart.
   */
  function RemoveTarget(st: ShopState, who: Requester, movieId: nat, userCartId: Option<nat>): (r: Result<CartItem>)
    ensures r.Ok? ==> r.value in st.cartItems && r.value.movieId == movieId
    ensures r.Ok? && (userCartId.None? || userCartId == Some(0)) ==> InCartOf(st.carts, r.value, who.profileId)
    ensures r.Ok? && userCartId.Some? && userCartId.value != 0 ==> r.value.cartId == userCartId.value
    ensures r == Err(UserDontHavePermission) <==>
      (IsBaseRole(who.role) && userCartId.Some? && userCartId.value != 0)
    ensures r == Err(SomethingWentWrong) <==>
      if userCartId.None? || userCartId == Some(0) then
        forall ci :: ci in st.cartItems && ci.movieId == movieId ==> !InCartOf(st.carts, ci, who.profileId)
      else
        !IsBaseRole(who.role)
        && forall ci :: ci in st.cartItems && ci.movieId == movieId ==> !CartById(st.carts, userCartId).Some? || ci.cartId != userCartId.value
    ensures r.Err? ==> r.error == UserDontHavePermission || r.error == SomethingWentWrong
  {
    var found :=
      if userCartId.None? || userCartId == Some(0) then
        FindFirst(st.cartItems, (ci: CartItem) => ci.movieId == movieId && InCartOf(st.carts, ci, who.profileId))
      else if IsBaseRole(who.role) then None
      else
        FindFirst(st.cartItems, (ci: CartItem) =>
          ci.movieId == movieId && CartById(st.carts, userCartId).Some? && ci.cartId == userCartId.value);
    if (userCartId.Some? && userCartId.value != 0) && IsBaseRole(who.role) then Err(UserDontHavePermission)
    else if found.None? then Err(SomethingWentWrong)
    else Ok(found.value)
  }

  /** `cart_remove_item`: on success exactly the one matching item is deleted. */
  method CartRemoveItem(db: Db, movies: map<nat, Movie>, who: Requester, movieId: nat, userCartId: Option<nat>)
    returns (r: Result<string>)
    requires db.Valid()
    modifies db`cartItems
    ensures db.Valid()
    ensures movieId !in movies ==> r == Err(MovieNotFound) && db.cartItems == old(db.cartItems)
    ensures movieId in movies ==>
      match RemoveTarget(old(db.State()), who, movieId, userCartId)
      case Ok(item) =>
        r == Ok("Movie was successfully deleted from user's cart")
        && db.cartItems == RemoveRow(old(db.cartItems), item)
        && |db.cartItems| == |old(db.cartItems)| - 1
      case Err(e) => r == Err(e) && db.cartItems == old(db.cartItems)
  {
    if movieId !in movies {
      return Err(MovieNotFound);
    }
    match RemoveTarget(db.State(), who, movieId, userCartId) {
      case Ok(item) =>
        RemoveRowDeletesOne(db.cartItems, item);
        db.cartItems := RemoveRow(db.cartItems, item);
        r := Ok("Movie was successfully deleted from user's cart");
      case Err(e) =>
        r := Err(e);
    }
  }

  /** An empty or absent search term means no search, as `if not search_by_book_name`. */
  predicate NameMatches(movies: map<nat, Movie>, movieId: nat, search: Option<string>)
  {
    search.None? || search.value == "" || (movieId in movies && ContainsIgnoreCase(movies[movieId].name, search.value))
  }

  /** `total_price`: the current prices of every movie in the user's cart, paid or not, 0 for none. */
  function UserCartTotal(st: ShopState, movies: map<nat, Movie>, user: nat): nat
  {
    SumOf(Filter(st.cartItems, (ci: CartItem) => InCartOf(st.carts, ci, user)), (ci: CartItem) => PriceOf(movies, ci.movieId))
  }

  /** What both listings return: the cart id and the cart's items. */
  datatype CartView = CartView(cartId: nat, items: seq<CartItem>, totalPrice: nat)

  /**
   * The user's cart, provided some item of it satisfies `keep` and the
   * search term; `cart.id` on no cart is an unhandled error.
   */
  function SelectCart(st: ShopState, movies: map<nat, Movie>, user: nat, search: Option<string>, keep: nat -> bool)
    : (r: Result<Cart>)
    requires DistinctKeys(st.carts, CartOwner)
    ensures r.Ok? <==> exists c, ci | c in st.carts && ci in st.cartItems ::
      c.userProfileId == user && ci.cartId == c.id && keep(ci.movieId) && NameMatches(movies, ci.movieId, search)
    ensures r.Ok? ==> r.value in st.carts && r.value.userProfileId == user
    ensures r.Err? ==> r.error == InternalError
  {
    var own := CartOfUser(st.carts, user);
    OwnCartIsTheOnlyOne(st.carts, user);
    if own.Some? && exists ci | ci in st.cartItems ::
      ci.cartId == own.value.id && keep(ci.movieId) && NameMatches(movies, ci.movieId, search)
    then Ok(own.value)
    else Err(InternalError)
  }

  /**
   * `cart_items_list`: when some item of the user's cart is unpaid and
   * matches the search, the whole cart is returned (every item, paid or
   * not) with the total over all of its movies.
   */
  function CartItemsList(st: ShopState, movies: map<nat, Movie>, user: nat, search: Option<string>): (r: Result<CartView>)
    requires CartTablesUnique(st.carts, st.cartItems)
    ensures r.Ok? <==> exists c, ci | c in st.carts && ci in st.cartItems ::
      c.userProfileId == user && ci.cartId == c.id && Unpaid(st, user, ci.movieId) && NameMatches(movies, ci.movieId, search)
    ensures r.Ok? ==> r.value.items == ItemsOfCart(st.cartItems, r.value.cartId)
    ensures r.Ok? ==> forall ci :: ci in r.value.items <==> ci in st.cartItems && InCartOf(st.carts, ci, user)
    ensures r.Ok? ==> r.value.totalPrice == SumOf(r.value.items, (ci: CartItem) => PriceOf(movies, ci.movieId))
    ensures r.Err? ==> r.error == InternalError
  {
    match SelectCart(st, movies, user, search, (m: nat) => Unpaid(st, user, m))
    case Err(e) => Err(e)
    case Ok(c) =>
      OwnersItemsAreCartItems(st, user, c);
      Ok(CartView(c.id, ItemsOfCart(st.cartItems, c.id), UserCartTotal(st, movies, user)))
  }

  /** With one cart per user, the items of the user's cart are the items in a cart the user owns. */
  lemma OwnersItemsAreCartItems(st: ShopState, user: nat, c: Cart)
    requires CartTablesUnique(st.carts, st.cartItems)
    requires c in st.carts && c.userProfileId == user
    ensures Filter(st.cartItems, (ci: CartItem) => InCartOf(st.carts, ci, user)) == ItemsOfCart(st.cartItems, c.id)
  {
    forall ci | ci in st.cartItems ensures InCartOf(st.carts, ci, user) <==> ci.cartId == c.id {
      if InCartOf(st.carts, ci, user) {
        var c' :| c' in st.carts && c'.id == ci.cartId && c'.userProfileId == user;
        SameOwnerSameCart(st.carts, c, c');
      }
    }
    FilterCongruent(st.cartItems,
      (ci: CartItem) => InCartOf(st.carts, ci, user), (ci: CartItem) => ci.cartId == c.id);
  }

  /** With one cart per owner, every cart of `user` is the one `CartOfUser` finds. */
  lemma OwnCartIsTheOnlyOne(carts: seq<Cart>, user: nat)
    requires DistinctKeys(carts, CartOwner)
    ensures forall c | c in carts && c.userProfileId == user :: CartOfUser(carts, user) == Some(c)
  {
    forall c | c in carts && c.userProfileId == user ensures CartOfUser(carts, user) == Some(c) {
      SameOwnerSameCart(carts, c, CartOfUser(carts, user).value);
    }
  }

  lemma SameOwnerSameCart(carts: seq<Cart>, a: Cart, b: Cart)
    requires DistinctKeys(carts, CartOwner)
    requires a in carts && b in carts && a.userProfileId == b.userProfileId
    ensures a == b
  {
    var i :| 0 <= i < |carts| && carts[i] == a;
    var j :| 0 <= j < |carts| && carts[j] == b;
    assert forall x, y | 0 <= x < |carts| && 0 <= y < |carts| && CartOwner(carts[x]) == CartOwner(carts[y]) :: x == y;
    assert i == j;
  }

  /** The cart total is the price of the unpaid items plus the price of the others. */
  lemma TotalCoversPaidAndUnpaid(st: ShopState, movies: map<nat, Movie>, user: nat)
    ensures var mine := Filter(st.cartItems, (ci: CartItem) => InCartOf(st.carts, ci, user));
      var price := (ci: CartItem) => PriceOf(movies, ci.movieId);
      UserCartTotal(st, movies, user)
      == SumOf(Filter(mine, (ci: CartItem) => Unpaid(st, user, ci.movieId)), price)
       + SumOf(Filter(mine, (ci: CartItem) => !Unpaid(st, user, ci.movieId)), price)
  {
    var mine := Filter(st.cartItems, (ci: CartItem) => InCartOf(st.carts, ci, user));
    var price := (ci: CartItem) => PriceOf(movies, ci.movieId);
    SumOfSplit(mine, (ci: CartItem) => Unpaid(st, user, ci.movieId), (ci: CartItem) => !Unpaid(st, user, ci.movieId), price);
  }

  /**
   * `cart_purchased_items`: the user's whole cart, when some item of it is
   * purchased in the listing sense and matches the search.
   */
  function CartPurchasedItems(st: ShopState, movies: map<nat, Movie>, user: nat, search: Option<string>)
    : (r: Result<(nat, seq<CartItem>)>)
    requires CartTablesUnique(st.carts, st.cartItems)
    ensures r.Ok? <==> exists c, ci | c in st.carts && ci in st.cartItems ::
      c.userProfileId == user && ci.cartId == c.id && Purchased(st, user, ci.movieId) && NameMatches(movies, ci.movieId, search)
    ensures r.Ok? ==> r.value.1 == ItemsOfCart(st.cartItems, r.value.0)
    ensures r.Ok? ==> exists c | c in st.carts :: c.id == r.value.0 && c.userProfileId == user
    ensures r.Err? ==> r.error == InternalError
  {
    match SelectCart(st, movies, user, search, (m: nat) => Purchased(st, user, m))
    case Err(e) => Err(e)
    case Ok(c) => Ok((c.id, ItemsOfCart(st.cartItems, c.id)))
  }

  /** No item makes both listings select the cart through it. */
  lemma ListingsSelectThroughDisjointItems(st: ShopState, user: nat, ci: CartItem)
    ensures !(Unpaid(st, user, ci.movieId) && Purchased(st, user, ci.movieId))
  {
    UnpaidAndPurchasedDisjoint(st, user, ci.movieId);
  }

  /** Whether a cart passes the admin email search: no search, or its profile's account has that email. */
  predicate AdminCartMatches(emails: map<nat, string>, c: Cart, search: Option<string>)
  {
    search.None? || search.value == ""
    || (c.userProfileId in emails && emails[c.userProfileId] == search.value)
  }

  /** The carts that pass the admin email search, in table order. */
  function AdminCartsMatching(carts: seq<Cart>, emails: map<nat, string>, search: Option<string>): (r: seq<Cart>)
    ensures forall c :: c in r <==> c in carts && AdminCartMatches(emails, c, search)
  {
    Filter(carts, (c: Cart) => AdminCartMatches(emails, c, search))
  }

  /**
   * `admin_carts_list`: refused to base-role users; otherwise one page of
   * the carts (those of the profile whose account email equals the search
   * term, when one is given) and the number of all carts.
   */
  function AdminCartsList(st: ShopState, emails: map<nat, string>, who: Requester, search: Option<string>, skip: nat, limit: nat)
    : (r: Result<(seq<Cart>, nat)>)
    ensures IsBaseRole(who.role) <==> r == Err(UserDontHavePermission)
    ensures r.Ok? ==> r.value.1 == |st.carts| && |r.value.0| <= limit
    ensures r.Ok? ==> r.value.0 == Page(AdminCartsMatching(st.carts, emails, search), skip, limit)
    ensures r.Ok? ==> forall c :: c in r.value.0 ==> c in st.carts
    ensures r.Ok? && search.Some? && search.value != "" ==>
      forall c :: c in r.value.0 ==> c.userProfileId in emails && emails[c.userProfileId] == search.value
  {
    if IsBaseRole(who.role) then Err(UserDontHavePermission)
    else
      var page := Page(AdminCartsMatching(st.carts, emails, search), skip, limit);
      assert forall c :: c in page ==> c in AdminCartsMatching(st.carts, emails, search);
      Ok((page, |st.carts|))
  }

  /** With no search and a page as long as the table, the admin listing is every cart in table order. */
  lemma AdminCartsListComplete(st: ShopState, emails: map<nat, string>, who: Requester, limit: nat)
    requires !IsBaseRole(who.role) && limit >= |st.carts|
    ensures AdminCartsList(st, emails, who, None, 0, limit) == Ok((st.carts, |st.carts|))
  {
    var m := AdminCartsMatching(st.carts, emails, None);
    FilterAll(st.carts, (c: Cart) => AdminCartMatches(emails, c, None));
    assert Page(m, 0, limit) == m;
  }

  /** `admin_user_cart_detail`: refused to base-role users; a missing cart is CartNotExistError. */
  function AdminUserCartDetail(st: ShopState, who: Requester, cartId: nat): (r: Result<(Cart, seq<CartItem>)>)
    ensures IsBaseRole(who.role) <==> r == Err(UserDontHavePermission)
    ensures !IsBaseRole(who.role) ==>
      (r == Err(CartNotExist) <==> forall c :: c in st.carts ==> c.id != cartId)
    ensures r.Ok? ==> r.value.0 in st.carts && r.value.0.id == cartId
    ensures r.Ok? ==> forall ci :: ci in r.value.1 <==> ci in st.cartItems && ci.cartId == cartId
  {
    if IsBaseRole(who.role) then Err(UserDontHavePermission)
    else match CartById(st.carts, Some(cartId))
      case None => Err(CartNotExist)
      case Some(c) => Ok((c, ItemsOfCart(st.cartItems, cartId)))
  }
}
