# Cart, inventory and order state machine of the clothes shop backend

This project models the part of the Django shop backend in `clothes/` that changes stored state. It covers:

- the cart handlers `add_to_cart`, `remove_from_cart` and `change_product_quantity`;
- the order handlers `create_order`, `cancel_order` and `rate_product`;
- the `save()` hooks of the models they write through: `UserAccount`, `Clothes`, `Cart`, `CartItem`, `Order` and `OrderItem`;
- the email check of `create_user` and the tracking-number generator;
- the role predicates `IsAdmin` and `IsUser`.

The store is five tables:

- users;
- products (the catalog);
- payment methods;
- carts, keyed by owner, each holding its lines;
- orders, a sequence whose index is the order id, each holding its lines.

Modules:

- `Shop` defines the rows and the derivation rules of the `save()` hooks as functions on values. It also defines the predicate `Consistent`, which says that every cached or derived field agrees with what it is derived from:
  - a product's status and rating;
  - a cart's line prices, count and total;
  - an order's tracking number and the ratings of its lines.
- `Carts`, `Orders` and `Accounts` state each handler as a function from the store to the new store and a response (`Step`). Their lemmas prove what the handlers promise:
  - the errors, in the order the code checks them;
  - what changes and what does not;
  - the arithmetic of the cart aggregates, the stock and the order totals;
  - that `Consistent` is preserved.
- `Views.Store` is a class holding the five tables as fields. Its methods update those fields in place, step by step, as the Python code does. That includes the double writes of each `save()` hook and both loops of `create_order`. Each handler method is proved to leave the tables equal to the result of the function of the same name, and to give the same response.
- `Tracking` models `generate_tracking_number` over a sequence of ten digits supplied by the caller.
- `Permissions` models the role predicates and the permission classes each handler is declared with.

Errors are one enumeration, `Shop.Error`. It carries no HTTP status and no message text.

Points of the code's behaviour that the model keeps as written:

- **Partial commit.** `create_order` runs under `@transaction.atomic`, but a failure in its first loop is a `return` of an error response, not an exception. The transaction therefore commits, and the stock decrements already made for earlier items persist (clothes/views.py:394, 424-456). `Orders.CreateOrderOutcome` states this, and `Orders.PartialCommitWitness` shows one such run.
- **Line totals are not frozen.** `OrderItem.save` recomputes a line total from the product's current price. `rate_product` saves the line, so rating it reprices it (clothes/models.py:287-289, clothes/views.py:529).
- **Order of the rating checks.** `rate_product` checks the rating's range before it looks up the line and before it checks for an existing rating. A second rating with an out-of-range value therefore fails with the range error, not with "already rated".
- **Duplicate order lines.** An order with two lines for the same product (two items of one request naming it) makes the line lookup raise. The model reports that as `DuplicateOrderLine`.
- **Tracking numbers.** They are ten random digits (clothes/models.py:233-234). The column is declared `unique=True` (clothes/models.py:210), so the database refuses an order whose number collides with an existing one. The model does not capture that refusal (see "Left out").

## Model

| member | source | states |
|---|---|---|
| Tracking.GenerateTrackingNumber | clothes/models.py:233-234 | the result is exactly ten characters, all decimal digits, and reading it back gives the digits drawn |
| Tracking.ReadSpell | clothes/models.py:233-234 | spelling digits and reading them back is the identity |
| Tracking.SpellRead | clothes/models.py:233-234 | every string of decimal digits is the spelling of its digits |
| Shop.FindLine | clothes/views.py:308 | the result is the index of the first cart line for the product, and None exactly when no line has it |
| Shop.Without | clothes/views.py:483 | the filtered delete keeps exactly the lines of other products |
| Shop.WithoutDistinct | clothes/views.py:483 | deleting a product's lines keeps the cart at one line per product |
| Shop.WithoutConcat | clothes/views.py:483 | the delete keeps the remaining lines in their order: deleting from two runs of lines is deleting from each |
| Shop.WithoutFindLine | clothes/views.py:483 | after the delete, the first line of any other product (what `.first()` finds) is the same line as before |
| Shop.WithoutAbsent | clothes/views.py:483 | deleting a product the cart has no line for leaves the lines unchanged |
| Shop.SavedClothesRules | clothes/models.py:122-135 | a saved product is out of stock iff its stock is 0; it has no rating iff no order line rates it, otherwise a rating in 1..5; name, price and stock are kept; a second save changes nothing |
| Shop.MeanRatingInRange | clothes/models.py:129-134 | the mean of ratings in 1..5 is in 1..5, and there is none exactly when there are no ratings |
| Shop.SavedCartRules | clothes/models.py:157-162 | a cart saved after its lines holds their count and the sum of quantity times price (0 and 0 when empty), agrees with the catalog, keeps its products, and a second save changes nothing |
| Shop.CartValueReconciles | clothes/views.py:275-277 | the total the handlers assign (quantity times live price) equals the sum of cached line prices `Cart.save` then stores, when the cached prices agree with the catalog |
| Shop.SavedOrderSettles | clothes/models.py:225-231 | an empty recipient becomes the username; a tracking number is generated only when none is set; a second save, whatever the draws, changes nothing |
| Permissions.RoleGrants | clothes/permissions.py:7-15 | `IsAdmin` grants exactly authenticated 'admin' requests and `IsUser` exactly authenticated 'user' requests |
| Permissions.AnonymousDenied | clothes/permissions.py:7-15 | an unauthenticated request is refused by both predicates and by every handler |
| Permissions.RolesExclusive | clothes/permissions.py:7-15 | no request satisfies both predicates |
| Permissions.AdminReach | clothes/views.py:293-295 | an administrator reaches only `remove_from_cart` (declared without `IsUser`); a user reaches every handler |
| Carts.AddToCartAcceptance | clothes/views.py:247-259 | success iff the id is truthy, the product exists and the stock covers the requested quantity (not the resulting line quantity); otherwise a missing id, an unknown product or too little stock, in that order; on failure only the get-or-created cart changes; no other table changes |
| Carts.AddToCartLine | clothes/views.py:261-273 | the product's quantity in the cart grows by exactly the requested amount (a new line gets it, an existing one is incremented), other products are untouched, the product joins the cart's products, and the response carries the line's quantity |
| Carts.AddedCartAgrees | clothes/views.py:261-277 | on a cart that agrees with the catalog, adding raises the total by price times quantity, the count by one only for a new line, and the cart still agrees |
| Carts.AddToCartTotals | clothes/views.py:270-277 | a successful add raises the cart total by price times quantity and the count by one only for a new product, and keeps the store consistent |
| Carts.AddToCartConsistent | clothes/views.py:247-277 | `add_to_cart` keeps the store consistent whatever its outcome, including the empty cart a failed request may have created |
| Carts.RemoveFromCartOutcome | clothes/views.py:298-311 | success iff the cart exists, the id is truthy, the product exists and the cart has a line for it; each failure has its own error, in order: no cart, missing id, unknown product, no line; failures change nothing; other carts and tables are untouched |
| Carts.RemoveFromCartTotals | clothes/views.py:312-319 | the product's line and its membership of the cart's products are gone, other quantities are kept, the total falls by price times the removed quantity, the count by one (both 0 when it was the last line), and the store stays consistent |
| Carts.ChangeQuantityOutcome | clothes/views.py:338-353 | success iff the cart exists, id and quantity are truthy (so 0 is rejected), the product exists and has a line; there is no stock check; each failure has its own error, checked in order: no cart, missing id or quantity, unknown product, no line; failures change nothing |
| Carts.ChangeQuantityTotals | clothes/views.py:355-367 | the quantity is overwritten absolutely, the total moves by price times the difference, the count is kept, the response carries the line count, name and quantity, and the store stays consistent |
| Orders.ReserveFrame | clothes/views.py:424-456 | the first loop keeps the listing, lowers stock by exactly what the placed entries take, records each entry with its item's product, quantity and price, and places every item when it does not fail |
| Orders.ItemVerdict | clothes/views.py:426-442 | one pass of the first loop accepts an item iff it is admissible after the items before it; otherwise it changes nothing but the recorded error, that of the first check the item fails |
| Orders.ReserveOutcome | clothes/views.py:424-456 | the first loop fails iff some item is not admissible after the items before it; then it stops at the first such item with the error of its first failed check (no id, unknown product, too little stock, not in the cart) and with the stock of the earlier items already taken |
| Orders.ReserveStops | clothes/views.py:424-456 | once an item has failed, the later items change nothing |
| Orders.ReserveKeepsProducts | clothes/views.py:436-437 | each product the loop re-saves keeps the status and rating its stock and the orders give it |
| Orders.CreateOrderOutcome | clothes/views.py:397-456 | success iff cart, source, payment, non-empty list (one item for "detail") and every item admissible; each failed precheck gives its own error in that order and changes nothing; a failure in the loop gives the first inadmissible item's error and changes only stock, keeping the decrements of earlier items |
| Orders.NewOrderShape | clothes/views.py:458-478 | the new order is the user's, Pending, has a ten-digit tracking number, the request's recipient or the username, one line per item in order with price times quantity and no rating, a total equal to the sum of its lines, and the set of requested products |
| Orders.CreateOrderResult | clothes/views.py:424-478 | a successful order gets the next id and is appended with earlier orders untouched; each product's stock falls by exactly the quantity requested of it; users and payment methods are unchanged |
| Orders.CleanedMembers | clothes/views.py:482-484 | the cleaned cart keeps exactly the lines of products not ordered, one per product |
| Orders.CreateOrderCleanup | clothes/views.py:482-484 | from the cart, whole lines of the ordered products are deleted whatever quantity was ordered, the aggregates are recomputed and the products set is kept; from the detail page the carts are untouched |
| Orders.CreateOrderConsistent | clothes/views.py:395-489 | `create_order` keeps the store consistent, whether it succeeds or fails |
| Orders.PartialCommitWitness | clothes/views.py:394-440 | an order whose second item is out of stock fails and creates no order, yet the first item's stock stays decremented (5 to 3) |
| Orders.CancelOrderOutcome | clothes/views.py:494-507 | success iff the order exists, is the caller's and is Pending, failing otherwise as not found, forbidden or not cancellable, in that order; only that order changes, to Cancelled, with its tracking number kept; stock and carts never change; failures change nothing |
| Orders.CancelTwiceFails | clothes/views.py:500-503 | cancellation is one-way: cancelling again fails as not cancellable and changes nothing |
| Orders.CancelOrderConsistent | clothes/views.py:494-503 | cancelling keeps the store consistent |
| Orders.GetOrderLine | clothes/views.py:525 | the lookup finds the one line of the product, fails as not-found iff there is none, and as a duplicate otherwise |
| Orders.GetOrderLineUnique | clothes/views.py:525 | a product with exactly one line is found at that line |
| Orders.GetOrderLineOutcome | clothes/views.py:525 | the lookup reports no line when there is none, several lines when two lines name the product, and otherwise the one line |
| Orders.RateProductOutcome | clothes/views.py:514-529 | success iff the order exists, is the caller's and Completed, the product exists, the rating is in 1..5, and the order has exactly one line for the product, unrated; each failure has its own error in the code's order (not found, forbidden, not rateable, unknown product, out of range, no line, several lines, already rated); failures change nothing; the response names the user, the product and the rating |
| Orders.RateWriteOnce | clothes/views.py:523-527 | after a successful rating, rating the same line again fails (range error if out of range, otherwise already rated) and changes nothing |
| Orders.RateChangesOneLine | clothes/views.py:528-529 | a rating changes only its line (rating set, total repriced at the current price) and that product's rating; the product's name, price and stock are kept; every other line, order, product, cart and table is unchanged |
| Orders.RateSetsMean | clothes/models.py:287-293 | on a consistent store the product's rating becomes the mean of its old ratings and the new one, in 1..5, and the store stays consistent |
| Accounts.SavedUserRules | clothes/models.py:65-74 | a saved account is staff iff its role is 'admin'; a non-staff account has exactly one cart (its own, or a new empty one); nothing else changes; saving again changes nothing |
| Accounts.CreateUserOutcome | clothes/models.py:11-22 | `create_user` succeeds iff the email is not empty; the stored account is staff iff the role is 'admin', and a new non-staff account starts with an empty cart |
| Accounts.SavedUserConsistent | clothes/models.py:65-74 | saving an account keeps the store consistent |
| Views.Store.SaveClothes | clothes/models.py:122-135 | writes the status from the stock, then the mean rating from the order lines, into the product's row |
| Views.Store.SaveCartItem | clothes/models.py:175-177 | writes the line with price = product price times quantity at its index (appending a new line) |
| Views.Store.SaveCart | clothes/models.py:157-162 | writes the in-memory aggregates, then overwrites them with the line count and the sum of line prices |
| Views.Store.SaveOrder | clothes/models.py:225-231 | writes the order with its defaulted recipient and its tracking number set only when empty |
| Views.Store.SaveOrderItem | clothes/models.py:287-293 | writes the line with total = product price times quantity, and re-saves the product when the order is Completed |
| Views.Store.SaveUser | clothes/models.py:65-74 | writes the account with `is_staff` from the role and get-or-creates a cart for a non-staff account |
| Views.Store.CreateUser | clothes/models.py:11-22 | refuses an empty email, otherwise saves the new account; tables and response equal `Accounts.CreateUser` |
| Views.Store.WriteLine | clothes/views.py:261-267 | the line is got or created with quantity 1 and saved, then incremented or set and saved again; its quantity is the old one plus the request, or the request |
| Views.Store.AddToCart | clothes/views.py:244-291 | tables and response equal `Carts.AddToCart` |
| Views.Store.RemoveFromCart | clothes/views.py:295-331 | tables and response equal `Carts.RemoveFromCart` |
| Views.Store.ChangeProductQuantity | clothes/views.py:336-376 | tables and response equal `Carts.ChangeProductQuantity` |
| Views.Store.ReserveOne | clothes/views.py:425-456 | one pass of the first loop checks the item and saves its stock decrement, as `Orders.ReserveItem` |
| Views.Store.ReserveItems | clothes/views.py:424-456 | the first loop, stopping at the first failure with earlier decrements saved, leaves the catalog and entries that `Orders.Reserve` gives |
| Views.Store.PlaceLine | clothes/views.py:473-484 | one pass of the second loop appends the saved order line, adds the product to the order and, from the cart, deletes its cart line and saves the cart |
| Views.Store.PlaceLines | clothes/views.py:472-484 | the second loop leaves the order with one line per entry and the set of their products, and the cart cleaned of their lines |
| Views.Store.CreateOrder | clothes/views.py:395-489 | tables and response equal `Orders.CreateOrder` |
| Views.Store.CancelOrder | clothes/views.py:494-507 | tables and response equal `Orders.CancelOrder` |
| Views.Store.RateProduct | clothes/views.py:512-547 | tables and response equal `Orders.RateProduct` |

## Left out

- HTTP status codes, response message text and the serializer output are left out. Each failure is one `Shop.Error` value. `create_order` answers with the new order's id.
- Authentication, registration, passwords, tokens and e-mail sending are left out; they are framework plumbing. The handlers take the caller's user id, and `Permissions` models the permission classes separately.
- The catch-all `except Exception` handlers (500 responses) are left out as a response kind. The failures they catch are modelled as the `Shop.Error` of their cause:
  - `get_object_or_404` raises `Http404`, which only the catch-all of its handler catches (clothes/views.py:256 and 290, 298 and 306 and 330, 338 and 349 and 375). The model gives `ProductNotFound` for a missing product and `CartNotFound` for a missing cart;
  - `Cart.objects.get` in `create_order` (clothes/views.py:398) raises `DoesNotExist`, caught by the catch-all at clothes/views.py:488. The model gives `CartNotFound`;
  - `rate_product` has no catch-all. `MultipleObjectsReturned` from the line lookup (clothes/views.py:525) is not caught there at all. The model gives `DuplicateOrderLine`.
- Request values of the wrong type (a string quantity, a missing or non-numeric rating that makes `int(rating)` raise) are left out. Quantities are natural numbers and a rating is an integer. An id is an optional natural number, and `if not x` is modelled as "absent or 0" (`Shop.Truthy`).
- `Carts.AddToCart`: the quantity is passed in. The default of 1 when the request has no quantity field (clothes/views.py:251) is left to the caller. In `create_order` that default is modelled (`Orders.RequestedQuantity`).
- `create_user`: e-mail normalisation and password hashing are left out. The new account's primary key is a parameter that must not already be used.
- The recipient's name, phone and address in `create_order`: a missing field is modelled as the empty string.
- `select_for_update` row locking and any concurrent interleaving are left out. Every handler runs alone.
- The randomness of `generate_tracking_number` is left out. The ten digits are a parameter (`draws`).
- The `unique=True` constraint on the tracking number (clothes/models.py:210) is left out. A drawn number that equals an existing order's would make the insert in `create_order` fail; the model lets it through, and two orders may share a number.
- The `unique=True` constraints on an account's email and username (clothes/models.py:46-47) are left out. A duplicate would make the insert in `create_user` raise; `Accounts.CreateUser` only refuses an empty email.
- The timestamps `created_at` and `updated_at` of an order (clothes/models.py:212-213) are left out. They come from the clock and no handler reads them.
- Floating point is left out. Money is a natural number. The `0.0` accumulator of `create_order` becomes a natural number. The mean rating is a `real` quotient of integers.
- A product whose stock is null is left out; stock is a natural number.
- Column widths and the database's range checks are left out. Prices, stock, quantities and totals are unbounded natural numbers. In the code they are 32-bit integer columns: `Clothes.price` (clothes/models.py:85, which also admits negative prices), `Cart.total_value` (141), `CartItem.price` (169), `Order.tongtien` (217), and `OrderItem.quantity` and `total_value` (277-278). On a backend that enforces the range, a large price times quantity makes the save raise. The catch-all then answers 500.
- Duplicate cart lines for one product are left out. They would make `get_or_create` in `add_to_cart` raise. The handlers never create them, and the invariant `Consistent`, which every handler preserves, includes one line per product.
- Other handlers are left out: `user_orders`, catalog and category CRUD, and search. The admin site (clothes/admin.py) and its edit toggle are also left out. None of them is part of this state machine.
- The display helpers (`status_view`, `_price`, `_total_value`, `_tongtien`, `get_price`) are left out. They only format values.
