# Online cinema backend: a Dafny model of its bookkeeping, toggles and accounts

The system is an online cinema. Users browse a movie catalogue, put movies in a
cart, turn the cart into an order, and pay for the order through an external
card processor. The processor reports back through a webhook, and the system
records a payment ledger. Users also like comments and replies, rate movies
(like/dislike and 0..10 stars) and keep favourites. Accounts are registered,
activated by emailed codes, logged in with access/refresh tokens and recovered
by password-reset codes.

This project models the core of that system in Dafny:

- **Tables.** The database tables are `seq` and `map` fields of three classes:
  - `Shop.Db` holds carts, cart items, orders, order items, payments and payment items;
  - `MovieModel.Catalog` holds movies, comments, replies, likes, ratings, favourites and star rates;
  - `AuthCrud.Accounts` holds users, groups, profiles and the three token tables.
- **Operations.**
  - An operation that changes rows is a `method` with a `modifies` clause.
  - Its `ensures` clauses give the new state and the answer. They are stated through a pure step function (`LoginStep`, `LikeCommentStep`, `RatingStep`, …) or a pure row builder (`NewOrder`, `SnapshotItems`, `LedgerItems`, …).
  - The properties the system promises are proved about those functions as lemmas.
- **Queries.** Read-only queries (listings, details, admin pages) are pure functions.
- **Money** is whole cents (`nat`).
- **Errors.** The error an operation raises is an `Err` of `Common.Error`:
  - `InternalError` stands for a database integrity failure or an `AttributeError` on a missing row.
  - An operation's already-committed part is kept when a later part fails.

Module map (one module per source file of the core):

| module | models |
|---|---|
| `Seqs`, `Common`, `Text`, `Shop` | shared helpers, error values, `ilike`, the shop tables |
| `CartModel`, `OrderModel`, `PaymentModel`, `MovieModel` | the ORM models of carts, orders, payments and the catalogue |
| `PaidSignals` | the two "is this movie paid for" subqueries the cart code uses |
| `CartCrud`, `OrderCrud`, `PaymentCrud` | the cart, order and payment CRUD functions |
| `PaymentWebhook`, `PaymentCheckout` | the processor webhook and the checkout-session endpoint |
| `MovieSchemas`, `MovieCrud` | the catalogue request schemas and interaction toggles |
| `AuthSchemas`, `AuthCrud` | the password rules and the account/token lifecycle |

## Model

| member | source | states |
|---|---|---|
| CartModel.ItemsOfCart | app/models/cart.py:15 | a cart's item collection holds exactly the cart-item rows whose cart id is that cart's |
| CartModel.CountOfAllItemsInCart | app/models/cart.py:17-19 | the count of a cart's items equals the number of distinct movies in it (one row per movie by the unique constraint) |
| CartModel.CartTablesUnique | app/models/cart.py:8-29 | cart ids and cart owners are unique (one cart per user profile), and no (cart, movie) item appears twice |
| OrderModel.ParseOrderStatus | app/models/order.py:10-13 | only PENDING, PAID and CANCELED name an order status, and a parsed status prints back as the same text |
| OrderModel.OrderStatusRoundTrip | app/models/order.py:10-13 | parsing a text gives status s exactly when the text is s's value |
| OrderModel.InitialOrderStatus | app/models/order.py:22 | a new order is PENDING unless a status is given |
| OrderModel.ItemsOfOrder | app/models/order.py:25 | an order's item collection holds exactly the order-item rows with its id |
| PaymentModel.ParsePaymentStatus | korbit_review/app/models/payment.py:10-13 | only SUCCESSFUL, CANCELED and REFUNDED name a payment status, and a parsed status prints back as the same text |
| PaymentModel.PaymentStatusRoundTrip | korbit_review/app/models/payment.py:10-13 | parsing a text gives status s exactly when the text is s's value |
| PaymentModel.InitialPaymentStatus | korbit_review/app/models/payment.py:23 | a new payment is SUCCESSFUL unless a status is given |
| PaymentModel.ItemsOfPayment | korbit_review/app/models/payment.py:29 | a payment's item collection holds exactly the ledger rows with its id |
| PaymentModel.CountOfItems | korbit_review/app/models/payment.py:31-33 | the item count equals the number of distinct order items the payment covers |
| MovieModel.CountOfRatings | app/models/movie.py:103-105 | a movie's rating count equals the number of users who rated it |
| MovieModel.CountOfFavorites | app/models/movie.py:107-109 | a movie's favourite count equals the number of users who favourited it |
| MovieModel.CountOfComments | app/models/movie.py:99-101 | zero exactly when no comment row belongs to the movie; otherwise the number of those rows |
| MovieModel.UniqueTitles | app/models/movie.py:66-70 | the UNIQUE (name, year, time) constraint: no two movies share that triple |
| PaidSignals.Unpaid | korbit_review/app/crud/cart.py:150-168 | a movie is unpaid for a user when neither the user's paid orders nor any successful payment's order has it |
| PaidSignals.Purchased | korbit_review/app/crud/cart.py:231-249 | a movie is purchased for a user when both the user's paid orders and some successful payment's order have it |
| PaidSignals.PurchasedForAdd | korbit_review/app/crud/cart.py:51-74 | the add-to-cart check: the cart owner has an item, and the movie is in a paid order of the acting user settled by that user's successful payment |
| PaidSignals.PurchasedForAddImpliesPurchased | korbit_review/app/crud/cart.py:51-74 | a movie the add-to-cart check counts as purchased is also purchased by the purchased-listing's test |
| PaidSignals.UnpaidAndPurchasedDisjoint | korbit_review/app/crud/cart.py:150-168 | no movie is at the same time unpaid and purchased for a user |
| PaidSignals.ListingsPartitionIffSignalsAgree | korbit_review/app/crud/cart.py:231-249 | a cart movie shows in one of the two listings exactly when the order signal and the payment signal agree |
| PaidSignals.PurchasedListingIsWiderThanAddCheck | korbit_review/app/crud/cart.py:51-74 | a movie paid through another user's payment is listed as purchased yet may be added to the cart again |
| PaidSignals.AnotherUsersPaymentHidesMovie | korbit_review/app/crud/cart.py:159-168 | another user's successful payment for the movie hides it from the unpaid listing |
| CartCrud.CartOfUser | korbit_review/app/crud/cart.py:31 | finds the requester's cart, or none when no cart has that owner |
| CartCrud.CartById | korbit_review/app/crud/cart.py:44-48 | finds the cart with the given id, or none when there is none |
| CartCrud.EnsureCart | korbit_review/app/crud/cart.py:31-35 | afterwards the user has a cart; at most one cart is added; a user who has a cart changes nothing |
| CartCrud.EnsureCartKeepsKeys | korbit_review/app/crud/cart.py:31-35 | creating the missing cart keeps cart ids and owners unique and ids below the counter |
| CartCrud.TargetCart | korbit_review/app/crud/cart.py:38-48 | a base-role user adds to their own cart, anyone else to the cart with the given id |
| CartCrud.BaseRoleAddsToOwnCart | korbit_review/app/crud/cart.py:31-39 | after the cart is ensured a base-role user always has a target, and it is their own cart |
| CartCrud.AddItemOutcome | korbit_review/app/crud/cart.py:38-83 | no target cart fails; a movie already in the target cart or purchased is refused; otherwise a new item of that cart and movie |
| CartCrud.CartAddItem | korbit_review/app/crud/cart.py:16-87 | unknown movie changes nothing; the cart is ensured, then the item is appended or the refusal leaves the items as they were |
| CartCrud.RemoveTarget | korbit_review/app/crud/cart.py:105-133 | without a cart id the item comes from the requester's own cart; with one a base-role user is refused; no matching item is "something went wrong" |
| CartCrud.CartRemoveItem | korbit_review/app/crud/cart.py:90-142 | unknown movie changes nothing; otherwise exactly the chosen item is removed, or nothing on a refusal |
| CartCrud.SelectCart | korbit_review/app/crud/cart.py:179-207 | the cart is found exactly when one of the owner's items passes the filter and matches the name search; otherwise the missing-row fault |
| CartCrud.CartItemsList | korbit_review/app/crud/cart.py:145-223 | the listing exists exactly when the owner has an unpaid item matching the search; it shows all of the cart's items and their total price |
| CartCrud.OwnersItemsAreCartItems | korbit_review/app/crud/cart.py:209-215 | the items joined through the owner's cart are exactly that cart's items |
| CartCrud.OwnCartIsTheOnlyOne | app/models/cart.py:12 | by the unique owner column, every cart of the user is the one the lookup finds |
| CartCrud.SameOwnerSameCart | app/models/cart.py:12 | two carts with one owner are the same cart |
| CartCrud.TotalCoversPaidAndUnpaid | korbit_review/app/crud/cart.py:209-222 | the listed total is the price of the unpaid items plus that of the already-paid ones |
| CartCrud.CartPurchasedItems | korbit_review/app/crud/cart.py:226-289 | the listing exists exactly when the owner has a purchased item matching the search; it shows the owner's cart's items |
| CartCrud.ListingsSelectThroughDisjointItems | korbit_review/app/crud/cart.py:145-289 | the two listings select a cart through disjoint items |
| CartCrud.AdminCartsMatching | korbit_review/app/crud/cart.py:302-314 | a cart is kept exactly when no search is given or its owner's account email equals the search |
| CartCrud.AdminCartsList | korbit_review/app/crud/cart.py:292-329 | refused to base-role users; otherwise exactly the page from `skip`, at most `limit` long, of the carts the email search keeps, with the count of all carts |
| CartCrud.AdminCartsListComplete | korbit_review/app/crud/cart.py:292-329 | with no search and a page as long as the table, the listing is every cart in table order |
| CartCrud.AdminUserCartDetail | korbit_review/app/crud/cart.py:332-358 | refused to base-role users; a missing cart is "cart does not exist"; otherwise the cart and exactly its items |
| OrderCrud.SelectedCartItems | korbit_review/app/crud/order.py:79-116 | the order takes exactly the requester's unpaid cart items |
| OrderCrud.SnapshotItems | korbit_review/app/crud/order.py:119-131 | one order item per selected cart item, same movie, current price, consecutive ids |
| OrderCrud.SnapshotPreservesPrice | korbit_review/app/crud/order.py:119-131 | the order items' prices add up to the selected items' current prices |
| OrderCrud.NewOrder | korbit_review/app/crud/order.py:99-125 | the new order is pending, owned by the requester, and its total is the price of every item in the requester's cart |
| OrderCrud.OrderTotalDecomposes | korbit_review/app/crud/order.py:99-131 | the order total equals its items' prices plus the prices of the cart items that were left out as already paid |
| OrderCrud.SelectedAreUnpaidItemsOfCart | korbit_review/app/crud/order.py:79-116 | selecting the cart's items and then the unpaid ones gives the order's selection |
| OrderCrud.CreateOrder | korbit_review/app/crud/order.py:75-140 | the order is appended; its items are appended after it, or none when a selected movie has gone (the fault after the first commit) |
| OrderCrud.OwnedOrder | korbit_review/app/crud/order.py:167-172 | finds the order with that id and owner, or none |
| OrderCrud.OrdersOf | korbit_review/app/crud/order.py:22-24 | exactly the orders whose owner is the requester |
| OrderCrud.OrderList | korbit_review/app/crud/order.py:16-43 | exactly the page from `skip`, at most `limit` long, of the requester's orders, and the number of all of them |
| OrderCrud.OrderDetail | korbit_review/app/crud/order.py:46-72 | another user's or a missing order is "does not exist"; otherwise the order with exactly its items |
| OrderCrud.OrderConfirm | korbit_review/app/crud/order.py:143-158 | an owned order gives the processor redirect; anything else is "does not exist" |
| OrderCrud.OrderRefuse | korbit_review/app/crud/order.py:161-182 | an owned order is deleted whatever its status exactly when no order item, payment or ledger row points at it; otherwise the commit fails and nothing changes; another user's or a missing order is "does not exist" |
| OrderCrud.AdminMatching | korbit_review/app/crud/order.py:205-213 | an order is kept exactly when it passes every filter the request sets: the creation date and a known status |
| OrderCrud.AdminUsersOrderList | korbit_review/app/crud/order.py:185-236 | refused to base-role users; a non-empty email search fails with an internal error; otherwise exactly the page from `skip` of the orders passing the date and status filters, with the count of all orders |
| OrderCrud.UnknownOrderStatusIgnored | korbit_review/app/crud/order.py:195-213 | a status filter that names no status gives the same answer as no status filter |
| PaymentCrud.PaymentsOf | app/crud/payment.py:21-23 | exactly the payments whose owner is the requester |
| PaymentCrud.PaymentsList | app/crud/payment.py:15-33 | exactly the page from `skip`, at most `limit` long, of the requester's payments, and the number of all of them |
| PaymentCrud.PaymentDetail | app/crud/payment.py:36-65 | another user's payment is refused; a missing payment gives no payment and no error; otherwise the requester's payment |
| PaymentCrud.AdminPaymentsMatching | app/crud/payment.py:80-94 | exactly the payments that pass the email, date and status filters |
| PaymentCrud.AdminPaymentUserList | app/crud/payment.py:68-117 | refused to base-role users; otherwise exactly the page from `skip` of the matching payments with the number of all matching ones, or the not-found marker when that page is empty |
| PaymentCrud.UnknownPaymentStatusIgnored | app/crud/payment.py:87-95 | a status filter that names no status gives the same answer as no status filter |
| PaymentCrud.AdminUserPaymentDetail | app/crud/payment.py:120-134 | refused to base-role users; otherwise the row the query selects, the payment with that id or none (the code hands back the unread result; see "## Left out") |
| PaymentWebhook.StatusesFor | app/api/v1/endpoints/payment.py:46-52 | the three handled event kinds map to (payment, order) statuses; the payment is successful exactly when the order becomes paid |
| PaymentWebhook.LedgerItems | app/api/v1/endpoints/payment.py:94-101 | one ledger row per order item, pointing at it, priced at the movie's current price |
| PaymentWebhook.StripeWebhook | app/api/v1/endpoints/payment.py:26-102 | bad signature or payload is a 400 and changes nothing; an unhandled kind is acknowledged; otherwise the order status is set and a payment recorded, then the ledger is added or the second commit fails |
| PaymentWebhook.AppendPayment | app/api/v1/endpoints/payment.py:72-91 | the order status and the new payment are committed together |
| PaymentWebhook.RecordPayment | app/api/v1/endpoints/payment.py:72-91 | the first commit: the order takes the event's status and the event's payment row is appended |
| PaymentWebhook.LedgerInsertable | app/api/v1/endpoints/payment.py:94-101 | no ledger row exists yet for any of the order items, and each item's id names an order (the foreign key as declared) |
| PaymentWebhook.AppendLedger | app/api/v1/endpoints/payment.py:94-101 | the ledger rows are appended, or nothing when a movie is gone or a row breaks a key |
| PaymentWebhook.RecordPaymentKeepsKeys | app/api/v1/endpoints/payment.py:72-91 | recording a payment keeps every table's keys unique and below their counters |
| PaymentWebhook.LedgerKeepsKeys | app/api/v1/endpoints/payment.py:94-101 | an insertable ledger keeps every table's keys unique and below their counters |
| PaymentWebhook.PaymentCreditedToOrderId | app/api/v1/endpoints/payment.py:56-58 | the payment's owner is the event's order id: it is the metadata user exactly when the two ids coincide |
| PaymentWebhook.RecordPaymentKeepsPaidByPayment | app/api/v1/endpoints/payment.py:72-91 | a movie paid through a successful payment stays paid after any later event |
| PaymentWebhook.PaymentsWithExternalId | app/api/v1/endpoints/payment.py:72-77 | the payments carrying an event id are exactly those rows |
| PaymentWebhook.ReplayRecordsSecondPayment | app/api/v1/endpoints/payment.py:72-91 | delivering the same event twice records two payments under its id |
| PaymentWebhook.SecondEventLedgerRefused | app/api/v1/endpoints/payment.py:94-101 | a second event for an order with a ledger can never add its ledger |
| PaymentWebhook.LedgerNeedsOrderWithItemId | app/api/v1/endpoints/payment.py:94-101 | an order item whose id names no order makes the ledger insert fail |
| PaymentWebhook.LedgerAgreesWithOrderWhenPricesUnchanged | app/api/v1/endpoints/payment.py:94-101 | when no price changed since the order, each ledger row has its order item's price |
| PaymentCheckout.CheckoutRows | app/api/v1/endpoints/payment.py:111-133 | the checkout query's rows are unsettled items of that order, and any row means the order exists and is unsettled |
| PaymentCheckout.CheckoutOrder | app/api/v1/endpoints/payment.py:111-133 | no row is "order does not exist"; more than one row makes the single-row fetch fail; otherwise the unsettled order |
| PaymentCheckout.MovieIdsOf | app/api/v1/endpoints/payment.py:135-145 | the movie ids of the order's items, position by position |
| PaymentCheckout.CheckoutOrderHasMovies | app/api/v1/endpoints/payment.py:111-145 | an order that passes the query has at least one movie id |
| PaymentCheckout.StaleMovieIds | app/api/v1/endpoints/payment.py:147-160 | exactly the order's movie ids that name no movie |
| PaymentCheckout.DeleteItemsById | app/api/v1/endpoints/payment.py:147-174 | keeps exactly the order items whose item id is not in the list |
| PaymentCheckout.Tally | app/api/v1/endpoints/payment.py:162-174 | counts each id of the list by its number of occurrences |
| PaymentCheckout.Distinct | app/api/v1/endpoints/payment.py:162-174 | the ids of the list, each once |
| PaymentCheckout.RepeatedMovieIds | app/api/v1/endpoints/payment.py:162-174 | the loop returns, each once, exactly the movie ids that occur more than once |
| PaymentCheckout.BoughtMovieIds | app/api/v1/endpoints/payment.py:176-182 | exactly the movies of order items already settled by a payment |
| PaymentCheckout.AlreadyBoughtIds | app/api/v1/endpoints/payment.py:184-187 | the loop keeps, in order, exactly the order's movie ids already bought |
| PaymentCheckout.DeleteBoughtItems | app/api/v1/endpoints/payment.py:189-210 | deletes exactly the requester's unsettled order items whose movie is already bought |
| PaymentCheckout.DeleteKeepsValid | app/api/v1/endpoints/payment.py:147-210 | deleting order items keeps every table's keys unique |
| PaymentCheckout.PruneOrderItems | app/api/v1/endpoints/payment.py:147-210 | the three deletion passes leave the order items the pruning function gives |
| PaymentCheckout.PrunedOrderItems | app/api/v1/endpoints/payment.py:147-210 | the order items left after the stale, repeat and bought passes, in that order, over the movie ids read before the first |
| PaymentCheckout.PruneStale | app/api/v1/endpoints/payment.py:147-160 | the stale pass deletes the items whose id is a stale movie id |
| PaymentCheckout.PruneRepeated | app/api/v1/endpoints/payment.py:162-174 | the repeat pass deletes the items whose id is a repeated movie id |
| PaymentCheckout.PruneBought | app/api/v1/endpoints/payment.py:176-210 | the bought pass deletes the requester's unsettled items of bought movies |
| PaymentCheckout.LineItemFor | app/api/v1/endpoints/payment.py:228-242 | one line per movie, quantity 1, charging the movie's price in cents |
| PaymentCheckout.BuildLineItems | app/api/v1/endpoints/payment.py:228-242 | one line per kept item, and the lines charge exactly the items' total |
| PaymentCheckout.ReplyResult | app/api/v1/endpoints/payment.py:244-258 | a session reply gives its URL; a processor error is a 400 with its message |
| PaymentCheckout.StripeCheckoutSession | app/api/v1/endpoints/payment.py:105-258 | a refused order changes nothing; otherwise the items are pruned, the total reset, and an empty order is a 400 or the processor is asked for the kept items with metadata (user, order, total) |
| PaymentCheckout.ChargeOrder | app/api/v1/endpoints/payment.py:212-258 | the total is reset to the kept items' prices; the request's lines charge exactly that total |
| PaymentCheckout.TwoUnpaidItemsFailCheckout | app/api/v1/endpoints/payment.py:111-133 | an order with two unpaid items cannot be checked out |
| PaymentCheckout.StalePassDeletesByItemId | app/api/v1/endpoints/payment.py:147-160 | the stale pass deletes another order's item whose item id equals the stale movie id |
| PaymentCheckout.RepeatedPassDeletesByItemId | app/api/v1/endpoints/payment.py:162-174 | the repeat pass keeps both duplicates and deletes an unrelated item whose id equals the movie id |
| PaymentCheckout.RepeatedIdsOfPair | app/api/v1/endpoints/payment.py:162-174 | a pair of equal ids is reported once |
| MovieSchemas.ParseCommentCreate | korbit_review/app/schemas/movie.py:17-18 | a comment is accepted exactly when it has at most 500 characters |
| MovieSchemas.ParseReplyCreate | korbit_review/app/schemas/movie.py:70-74 | a reply is accepted exactly when its text has at most 500 characters; left-out votes become 0, a given null stays null |
| MovieSchemas.ParseStarRate | korbit_review/app/schemas/movie.py:30-31 | a star rate is accepted exactly when it lies in 0..10 |
| MovieSchemas.ParseLikeOrDislike | korbit_review/app/schemas/movie.py:21-23 | only "LIKE" and "DISLIKE" are accepted, each naming its choice |
| MovieSchemas.LikeOrDislikeRoundTrip | korbit_review/app/schemas/movie.py:21-23 | a choice's value parses back to the choice |
| MovieModel.ParseStoredRating | app/models/movie.py:123-125 | the rating column accepts exactly "like" and "dislike", each as its member |
| MovieSchemas.RatingSpellingsDiffer | app/models/movie.py:123-125 | no request value equals a stored value, and no stored value is accepted as a request |
| MovieSchemas.ChoiceRefusedByColumn | app/crud/movie.py:439-446 | the rating column accepts neither request value |
| MovieSchemas.DumpIsGivenFields | korbit_review/app/schemas/movie.py:189-203 | the dump of an update holds exactly the fields it gives, each with its value; a field left None is dropped and the empty body dumps nothing |
| MovieCrud.GuardSpellingsAgree | app/crud/movie.py:229 | the `==`, `is` and `in` spellings of the base-role guard all pick out exactly the base role |
| MovieCrud.ToggleLike | app/crud/movie.py:356-370 | the requester's like flips and no other like changes |
| MovieCrud.LikeCommentStep | app/crud/movie.py:336-373 | a missing comment is refused; otherwise the like flips and the comment's votes move by one with it, nothing else changing |
| MovieCrud.LikeComment | app/crud/movie.py:336-373 | performs the comment-like step on the catalogue and keeps it valid |
| MovieCrud.LikeCommentTwiceRestores | app/crud/movie.py:336-373 | liking a comment twice gives back the catalogue |
| MovieCrud.LikersAfterToggle | app/crud/movie.py:356-370 | the toggle adds or removes exactly the requester among the comment's likers and leaves other comments' likers |
| MovieCrud.LikeCommentKeepsVotesCount | app/crud/movie.py:336-373 | the toggle keeps every comment's votes equal to its number of likers |
| MovieCrud.LikeReplyStep | app/crud/movie.py:461-500 | a missing reply is refused; the like row is toggled in the comment-like table under the reply's id, a new row needing a comment with that id |
| MovieCrud.LikeReply | app/crud/movie.py:461-500 | performs the reply-like step on the catalogue and keeps it valid |
| MovieCrud.LikeReplyMovesCommentLikers | app/crud/movie.py:461-500 | a reply like changes the likers of the comment with the reply's id while leaving comments unchanged |
| MovieCrud.ReplyLikeBreaksCommentVotes | app/crud/movie.py:461-500 | a reply like can break the agreement between a comment's votes and its likers |
| MovieCrud.FavoriteStep | app/crud/movie.py:376-413 | a missing movie is refused; otherwise the favourite flips and nothing else changes |
| MovieCrud.ToggleFavorite | app/crud/movie.py:376-413 | performs the favourite step on the catalogue and keeps it valid |
| MovieCrud.FavoriteKeepsValid | app/crud/movie.py:376-413 | the favourite toggle keeps the catalogue valid |
| MovieCrud.FavoriteTwiceRestores | app/crud/movie.py:376-413 | favouriting twice gives back the catalogue |
| MovieCrud.FavoriteRows | app/models/movie.py:107-109 | a movie's favourite rows, as many as its favourite count |
| MovieCrud.FavoriteMovesCount | app/crud/movie.py:398-407 | adding a favourite raises the movie's count by one, removing it lowers it by one |
| MovieCrud.RatingStep | app/crud/movie.py:416-458 | a missing movie is refused; an existing rating is deleted whatever the choice and the movie loses one vote; without one the insert is refused by the column and the request is an internal error that changes nothing |
| MovieCrud.RateMovie | app/crud/movie.py:416-458 | performs the rating step on the catalogue and keeps it valid |
| MovieCrud.RatingKeepsValid | app/crud/movie.py:416-458 | a rating request keeps the catalogue valid |
| MovieCrud.RatingLeavesNoRow | app/crud/movie.py:416-458 | after a request on an existing movie the requester has no rating of it |
| MovieCrud.RatingTwiceFails | app/crud/movie.py:416-458 | a second request on an existing movie, with either choice, is an internal error |
| MovieCrud.RatingTwiceRestores | app/crud/movie.py:416-458 | rating twice gives back the catalogue exactly when the requester had no rating or the movie is missing |
| MovieCrud.RatingRows | app/models/movie.py:103-105 | a movie's rating rows, as many as its rating count |
| MovieCrud.RatingKeepsVoteOffset | app/crud/movie.py:439-452 | every movie's votes minus its rating count stays the same |
| MovieCrud.StarRateStep | app/crud/movie.py:503-541 | a missing movie is refused; an existing star rate is deleted, otherwise the rate is stored |
| MovieCrud.RateInStars | app/crud/movie.py:503-541 | performs the star-rate step on the catalogue and keeps it valid |
| MovieCrud.StarRateKeepsValid | app/crud/movie.py:503-541 | the star-rate toggle keeps the catalogue valid |
| MovieCrud.StarRateKeepsRange | app/crud/movie.py:524-534 | a validated rate keeps every stored star rate in 0..10 |
| MovieCrud.StarRateTwiceRestores | app/crud/movie.py:503-541 | rating in stars twice gives back the catalogue exactly when no rate or that same rate was stored |
| MovieCrud.DeleteCommentStep | app/crud/movie.py:224-249 | refused to base-role users and for a missing comment; otherwise the comment goes with its likes and replies |
| MovieCrud.DeleteComment | app/crud/movie.py:224-249 | performs the comment delete on the catalogue and keeps it valid |
| MovieCrud.DeleteCommentKeepsValid | app/crud/movie.py:224-249 | deleting a comment keeps the catalogue valid |
| MovieCrud.DeleteCommentKeepsInvariants | app/crud/movie.py:224-249 | deleting a comment keeps the catalogue valid and the votes equal to the likers |
| MovieCrud.LikeCommentKeepsValid | app/crud/movie.py:336-373 | the comment-like toggle keeps the catalogue valid |
| MovieCrud.LikeReplyKeepsValid | app/crud/movie.py:461-500 | the reply-like toggle keeps the catalogue valid |
| MovieCrud.Existing | app/crud/movie.py:555-562 | exactly the given ids that name a row of the table |
| MovieCrud.TitleTaken | app/models/movie.py:66-70 | a movie other than the given one already has the (name, year, time) triple, so the commit would break the constraint |
| MovieCrud.NewMovie | app/crud/movie.py:555-583 | the new movie has the request's title and certification, no image, and links only existing genres, stars and directors |
| MovieCrud.CreateMovieStep | app/crud/movie.py:544-588 | refused to base-role users; the commit fails on an unknown certification or a taken title; otherwise the movie is added under the next id |
| MovieCrud.CreateMovie | app/crud/movie.py:544-588 | performs the movie create on the catalogue and keeps it valid |
| MovieCrud.CreateMovieKeepsValid | app/crud/movie.py:544-588 | on a valid catalogue a create fails only on the role, certification or title, and keeps the catalogue valid |
| MovieCrud.DeleteMovieStep | app/crud/movie.py:591-618 | refused to base-role users, and "not found" exactly for a missing movie; a movie in some cart stays, with the refusal message, exactly then; one with order items fails the commit; otherwise exactly that movie is deleted, with the success message |
| MovieCrud.DeleteMovie | app/crud/movie.py:591-618 | performs `DeleteMovieStep` on the catalogue and keeps it valid |
| MovieCrud.DeleteMovieKeepsValid | app/crud/movie.py:591-618 | deleting a movie keeps the catalogue valid |
| MovieCrud.DumpIsMerge | app/crud/movie.py:636-638 | setting the dumped fields one by one replaces exactly the provided columns |
| MovieCrud.SetAttrLoop | app/crud/movie.py:636-638 | the loop leaves the row as the field-by-field application of the items, the id lists skipped |
| MovieCrud.ApplyUpdate | app/crud/movie.py:636-638 | the field loop leaves the provided columns replaced and the rest of the row as it was |
| MovieCrud.Relink | app/crud/movie.py:640-651 | a non-empty id list relinks to exactly its existing rows; a missing or empty list keeps the links |
| MovieCrud.UpdateMovieStep | app/crud/movie.py:621-657 | refused to base-role users and for a missing movie; the commit fails on an unknown certification or a taken title; otherwise only that movie changes: its columns by the merge and its genres, directors and stars by the relinking of each id list |
| MovieCrud.UpdateMovie | app/crud/movie.py:621-657 | performs the movie update on the catalogue and keeps it valid |
| MovieCrud.EmptyUpdateChangesNothing | app/crud/movie.py:621-657 | the update `{}` commits the movie unchanged |
| MovieCrud.UpdateMovieKeepsValid | app/crud/movie.py:621-657 | a successful update keeps the catalogue valid |
| AuthSchemas.ValidatePassword | app/schemas/auth.py:52-57 | a password passes exactly when it has 8 characters or more, one not a letter and one not a digit, and passes unchanged |
| AuthSchemas.SpacesPass | app/schemas/auth.py:52-57 | eight spaces pass the password rule |
| AuthSchemas.OnlyLettersOrOnlyDigitsRefused | app/schemas/auth.py:54-56 | letters only, digits only and short passwords are refused; a mix of 8 passes |
| AuthSchemas.CheckNewPassword | app/schemas/auth.py:32-44 | differing copies are refused; equal copies are then held to the password rule, a weak password being refused too |
| AuthCrud.Decode | korbit_review/app/crud/auth.py:46-59 | a token decodes exactly when it is correctly signed |
| AuthCrud.CreateToken | korbit_review/app/core/security.py:24-29 | a signed token carrying the given claims plus `exp`, the creation time plus the lifetime in whole seconds |
| AuthCrud.VerifyPassword | korbit_review/app/core/security.py:15-16 | a password matches exactly when its hash is the stored hash |
| AuthCrud.UserByEmail | korbit_review/app/crud/auth.py:72-75 | finds a user with that email, or none when no user has it |
| AuthCrud.ValidateRefreshToken | korbit_review/app/crud/auth.py:27-64 | a missing or empty cookie and an unstored token are 401s; success means a stored, signed, unexpired refresh token of an existing user |
| AuthCrud.TokenRefresh | korbit_review/app/crud/auth.py:109-121 | a new access token for the user, carrying their email, role and the access lifetime |
| AuthCrud.LoginStep | korbit_review/app/crud/auth.py:67-106 | an unknown email and a wrong password change nothing; with distinct emails the request fails exactly when the password matches and the user's group is missing or the same refresh token is already stored; success stores a new refresh token for that user, carrying their email and their group's role, with a matching access token |
| AuthCrud.LoginKeepsValid | korbit_review/app/crud/auth.py:67-106 | login keeps the account invariant |
| AuthCrud.LoginThenRefresh | korbit_review/app/crud/auth.py:27-121 | a token from login refreshes exactly until its expiry, for the user who logged in |
| AuthCrud.SameSecondLoginFails | korbit_review/app/crud/auth.py:81-100 | a second login in the same second makes an identical refresh token and fails |
| AuthCrud.AccessTokenNeverRefreshes | korbit_review/app/crud/auth.py:36-45 | an access token is never a stored refresh token |
| AuthCrud.RegisterStep | korbit_review/app/crud/auth.py:124-194 | a taken email and an unknown group change nothing; otherwise the inactive user is committed, then the profile and activation code, or a code clash fails after the user |
| AuthCrud.RegisterKeepsValid | korbit_review/app/crud/auth.py:124-194 | registration keeps the account invariant |
| AuthCrud.RegisterKeepsTokenProfiles | korbit_review/app/crud/auth.py:124-194 | registration stores an activation code only together with its user's profile, so every stored code's user keeps a profile |
| AuthCrud.RegisteredUserLogsInBeforeActivation | korbit_review/app/crud/auth.py:67-106 | a freshly registered, still inactive user can log in |
| AuthCrud.Activated | korbit_review/app/crud/auth.py:214-223 | the user with that id becomes active, every other row stays |
| AuthCrud.ActivateStep | korbit_review/app/crud/auth.py:197-223 | an unknown code is 404; an expired one redirects to resend; a live code whose user is gone fails, and only then; otherwise the user is activated and the code spent |
| AuthCrud.ActivationConsumesToken | korbit_review/app/crud/auth.py:214-223 | after activation the user is active and the same code is no longer found |
| AuthCrud.ActivateKeepsValid | korbit_review/app/crud/auth.py:197-223 | activation keeps the account invariant |
| AuthCrud.ResendActivationStep | korbit_review/app/crud/auth.py:226-286 | an unknown code is 404; with distinct user ids, a different email is answered as a mismatch exactly when the code's user exists, and the request fails exactly when that user is gone or the new code is already stored; otherwise the old code is replaced by the new one for the same user, who has a profile whenever the accounts are valid |
| AuthCrud.ResendKeepsTokenCount | korbit_review/app/crud/auth.py:257-268 | a resend never changes the number of activation codes |
| AuthCrud.LogoutStep | korbit_review/app/crud/auth.py:289-309 | a token no longer stored is refused; otherwise exactly that token is removed |
| AuthCrud.LogoutRevokes | korbit_review/app/crud/auth.py:289-309 | after logout the token no longer refreshes, and other tokens remain |
| AuthCrud.RequestResetStep | korbit_review/app/crud/auth.py:312-354 | an unknown email is answered the same and changes nothing; with distinct emails, a code already stored fails and changes nothing, and otherwise exactly that code is stored for the user, the answer failing exactly when the user has no profile |
| AuthCrud.RequestResetThenChange | korbit_review/app/crud/auth.py:312-386 | the code a reset request stores for a known user changes that user's password until it expires, and is reported expired afterwards |
| AuthCrud.WithPassword | korbit_review/app/crud/auth.py:375-383 | the user with that id gets the new hash, every other row stays |
| AuthCrud.ChangePasswordStep | korbit_review/app/crud/auth.py:357-386 | an unknown code is 404; an expired one is refused; a live code whose user is gone fails, and only then; otherwise the user's password is replaced and the code spent |
| AuthCrud.ChangePasswordKeepsValid | korbit_review/app/crud/auth.py:357-386 | a password change keeps the account invariant |
| AuthCrud.LoginChecksStoredHash | korbit_review/app/crud/auth.py:77-79 | login says wrong password exactly when the stored hash is not that of the given password |
| AuthCrud.ChangePasswordThenLogin | korbit_review/app/crud/auth.py:357-386 | after a change the new password logs in and the old one is wrong |
| AuthCrud.ChangePasswordSpendsOnlyItsCode | korbit_review/app/crud/auth.py:375-383 | the used code is gone, every other reset code survives |
| AuthCrud.Login | korbit_review/app/crud/auth.py:67-106 | performs the login step on the accounts and keeps their invariant |
| AuthCrud.Register | korbit_review/app/crud/auth.py:124-194 | performs the registration step on the accounts and keeps their invariant |
| AuthCrud.ActivateAccount | korbit_review/app/crud/auth.py:197-223 | performs the activation step on the accounts and keeps their invariant |
| AuthCrud.SendNewActivationToken | korbit_review/app/crud/auth.py:226-286 | performs the resend step on the accounts and keeps their invariant |
| AuthCrud.Logout | korbit_review/app/crud/auth.py:289-309 | performs the logout step on the accounts and keeps their invariant |
| AuthCrud.RequestPasswordReset | korbit_review/app/crud/auth.py:312-354 | performs the reset-request step on the accounts and keeps their invariant |
| AuthCrud.ChangePassword | korbit_review/app/crud/auth.py:357-386 | performs the password-change step on the accounts and keeps their invariant |

## Divergences kept as written

The model follows the code where it does something other than what its
callers would expect. Each divergence is exhibited by a lemma or a contract.

- A replayed webhook event is not ignored: the code has no idempotency check, so once the webhook's failing statements are repaired (see "## Left out") it records a second payment and refuses the second ledger: `ReplayRecordsSecondPayment`, `SecondEventLedgerRefused`.
- The payment's owner is taken from the metadata's order id: `PaymentCreditedToOrderId`.
- The ledger rows join the order id against the order-item id: `LedgerNeedsOrderWithItemId`.
- `OrderRefuse` never checks the status: a paid or canceled order is deleted like a pending one, as long as nothing points at it.
- An order's total is not the sum of its items: `NewOrder` sums every item of the requester's cart, paid ones included, and only unpaid items become order items: `OrderTotalDecomposes`.
- Checkout fetches the order with a single-row query over its unpaid items, so once its loader option is repaired (see "## Left out") an order with two unpaid items fails: `TwoUnpaidItemsFailCheckout`.
- The stale and repeat passes delete order items by item id, not movie id: `StalePassDeletesByItemId`, `RepeatedPassDeletesByItemId`.
- The add-to-cart purchase check and the listings' payment subquery disagree: `PurchasedListingIsWiderThanAddCheck`, `AnotherUsersPaymentHidesMovie`, `ListingsPartitionIffSignalsAgree`.
- `AdminUsersOrderList` fails on every non-empty email search, and its count is not that of the matching orders (see "## Left out").
- `PaymentDetail` returns no payment and no error for a missing id. `AdminUserPaymentDetail` never returns a payment at all (see "## Left out").
- Reply likes are stored in the comment-like table under the reply's id: `LikeReplyMovesCommentLikers`, `ReplyLikeBreaksCommentVotes`.
- A like/dislike request spells the choice in upper case, the column in lower case, so a new rating can never be stored: `ChoiceRefusedByColumn`, `RatingTwiceFails`.
- A movie still referenced by an order item cannot be deleted: `DeleteMovieStep` answers `InternalError`.
- Two logins by one user in the same second fail: `SameSecondLoginFails`.
- Login ignores `is_active`: `RegisteredUserLogsInBeforeActivation`.
- A resend never checks that the old code has expired: `ResendActivationStep`.
- A password change leaves the user's other reset codes usable: `ChangePasswordSpendsOnlyItsCode`.
- Nothing in the password rule asks for a letter or a digit: `SpacesPass`.

## Left out

- Email sending, template rendering, background tasks and logging are left out; they do not change rows.
- Password hashing is abstract: `Hashed(p)` stands for the bcrypt hash, and `VerifyPassword` compares through it. Salting is not modelled.
- Tokens are abstract: a token is `Signed(claims)` or `Garbled(text)`. Signature checking, encoding and the secret key are not modelled.
- The clock, the random activation/reset codes and the token lifetimes are parameters. Time is whole seconds, and timezones are not modelled.
- The processor SDK is an oracle: a webhook delivery arrives already verified or refused, and the checkout session reply is a parameter.
- Floating-point averages (star-rate average), `read_movies`, `get_movie_by_id`, `create_comment` and `reply_comment` are not part of this model.
- The user model and user CRUD are not part of this model. Emails are taken as unique, a new user is inactive, and the role is a `Role` value.
- ChangePassword: for a stored code the change compares the naive `expires_at` column value with a timezone-aware `now`, which raises; an unknown code is answered with a 404 before that comparison. The model compares as intended.
- ChangePassword: the code then reads the misspelled `passoword1` of the request, which raises too. The model uses the checked password as intended.
- CheckNewPassword: both refusals build `pydantic.ValidationError` from a string, which raises a `TypeError`; the model records each branch only as a refusal.
- RegisterStep: the request schemas parse emails as `EmailStr`, which refuses malformed addresses and normalizes the rest (the domain is lower-cased, a display name is dropped); registration, resend and reset take the normalized form, while login looks up the raw form username. The model takes every email as already normalized, so it does not capture a login that fails because its text differs from the stored normal form.
- RegisteredUserLogsInBeforeActivation: it assumes the login form carries the email exactly as registration stored it; a login typed in another case of the domain is refused as written.
- ChangePassword: receives the new password already checked by the request schema.
- ValidatePassword: building `pydantic.ValidationError` from a string raises a `TypeError`. Either way the request is refused, and the model records only the refusal.
- ValidatePassword: `isalpha`/`isnumeric` are modelled on ASCII letters and digits; other Unicode letters and numerals are not.
- ResendActivationStep: after its commit the code reads the name on the user's profile. The model answers success whatever the profile, and proves instead that under the accounts' invariant, where every activation code's user has a profile, the profile is there; a state outside the invariant is not modelled.
- Logout: which refresh-token row the one-to-one `user.refresh_token` relationship loads is a parameter.
- DeleteMovieStep: the ORM would null `movie_id` on dependent comment, rating, favourite and star rows; the model leaves those rows in place.
- NewMovie: a price left out is stored as 0 cents.
- StripeWebhook: the code never adds the new Payment to the session, so as written no payment row is stored. The model stores it as intended.
- StripeWebhook: for a handled event the first query selects only `OrderItem.id` yet carries `joinedload(OrderItem.movie)`, a loader option with no entity to apply to, which raises when the statement executes; as written such an event changes nothing and answers 500. The model runs the event as intended.
- ReplayRecordsSecondPayment: it states the repaired webhook flow (the loader option dropped and the payment added to the session); as written a replay, like the first delivery, fails before recording anything.
- CheckoutOrder: the checkout query selects `Order` and carries `joinedload(OrderItem.movie)`, an option not rooted at `Order`, which raises when the statement executes; as written checkout answers 500 before "order does not exist" or the single-row fetch. The model runs the query as intended.
- TwoUnpaidItemsFailCheckout: it states the repaired checkout query; as written the loader option fails first, for one unpaid item as for two.
- AdminUserPaymentDetail: the code returns the unread query result instead of a payment, and its only caller turns anything that is not a payment into `SomethingWentWrongError`, so every permitted call fails. The model reads the selected row out as intended.
- LedgerItems: the webhook reads `.movie` on plain ids, which raises for every order with items. The model looks the movie up by id.
- BoughtMovieIds: the checkout's bought pass reads `PaymentItem.order_item.movie_id` on the class, which raises on every input; the model follows the intent.
- BuildLineItems: the checkout's total loop enumerates the order object, which raises on every input; the model sums the kept items as intended.
- StripeCheckoutSession: after each deletion pass the code refreshes the `order.order_items` collection as if it were a row, which raises on every input. The model omits that statement.
- CartAddItem: after creating a missing cart, `user_profile.cart` stays stale (the session does not expire on commit). The model uses the new cart as intended.
- `PaymentItem.order_item` names a back-reference `payment_item` that `OrderItem` spells `payment_items`, and `OrderItem.movie` names a back-reference `order_items` that `Movie` does not declare. Mapper configuration would fail; the model takes both relationships as intended.
- CartPurchasedItems: without a search term the query passes two positional criteria to `Cart.cart_items.any`, which takes one, so it raises `TypeError` on every input; with a search term it applies `.has` to the item collection and `.any` to the single movie, which raises as well. The model filters and searches as intended.
- CartItemsList: both branches of the query pass several positional criteria to `Cart.cart_items.any` (two without a search term, three with one), which takes one, so the listing raises `TypeError` on every input. The model selects the cart through `SelectCart` as intended.
- SelectCart: it stands for the `Cart.cart_items.any(...)` filter of the unpaid listing, which raises as written (see `CartItemsList`); it states the intended selection.
- AdminCartsList: the query calls `offset(skip=skip)`, a keyword `offset` does not take, which raises on every input (`limit(limit=limit)` is accepted). The model pages as intended.
- OrderList: the count statement executes `func.count(Order).filter(...)`, a column expression that is not an executable statement, so the call raises on every input. The model reports the number of the requester's orders as intended.
- PaymentsList: the count statement executes `func.count(Payment).filter(...)`, which is not executable either and raises on every input; were it to run, `total_items` would be the result object, not a number. The model reports the number of the requester's payments as intended.
- UpdateMovieStep: the movie is loaded without its genres, directors and stars, and assigning one of those lazy collections in the asynchronous session loads the old one, which raises; so a non-empty id list makes the request fail and roll back as written. The model relinks as intended.
- AdminUsersOrderList: the returned `total_items` is the result object of executing `func.count(Order)`, never read as a number. The model reports the number of all orders.
- Text.ContainsIgnoreCase: SQL `ILIKE` treats `%` and `_` in the search term as wildcards; the model matches them as plain characters, so a search containing them may find fewer rows than the database does.
- RatingStep: the rating column is taken as a native enum, which refuses the insert at commit. On a back end that stores the enum as plain text the insert succeeds and the row fails only when it is next loaded; that variant is not modelled.
- Concurrency between requests and transaction isolation are not modelled; each operation runs alone.
