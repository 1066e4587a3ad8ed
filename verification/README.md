# Restaurant cart and checkout, modelled in Dafny

This project models the cart and checkout logic of a small Django restaurant app
(`myapp`). A user adds menu items to a cart, changes or removes cart lines, views the
cart with its subtotal, and checks out. Checkout turns the cart into an order with
one priced line per cart line, and then empties the cart. The user can then open the
order's confirmation page.

The database becomes one immutable `Store` value. It holds:

- the menu items, keyed by id, each with a price, an availability flag and a category;
- the cart rows in creation order;
- the orders, keyed by id;
- the order lines;
- counters for the next primary keys, and a clock that stamps `added_at`.

Each view is a pure function from a store and a request to an outcome:

- the cart views return `Ok(store')` or `NotFound`;
- checkout returns `CartEmpty`, `FormPage(lines, subtotal)` or `Placed(store', orderId)`.

Only `Placed` carries a new store. So the empty-cart and invalid-form paths write
nothing by construction.

Files:

- `results.dfy`: `Option` and `Result`. `NotFound` stands for Django's `Http404`.
- `models.dfy`: the entities, the order status codes, the two `line_total` values and
  the sums built from them. Also `Valid`, the store invariant: foreign keys,
  `unique_together`, positive quantities, strictly increasing `added_at`, and each
  order total equal to the sum of its lines. Also a catalogue price edit.
- `queries.dfy`: the ORM filters as a `Filter` datatype, plus `Select`,
  the single-row lookup of `get`, `get_or_create` and `get_object_or_404`
  (`FirstIndex`, the first matching row) and the `-added_at` listing. A delete is modelled
  as keeping the rows that the opposite filter selects.
- `cart_views.dfy`: `add_to_cart`, `remove_from_cart`, `update_cart_quantity`,
  `view_cart`.
- `checkout_views.dfy`: `checkout`, `order_confirmation`.

Money is integer cents. The source stores prices and totals as decimals with two
places. Such values add, and multiply by whole quantities, without rounding, so
cents are exact. Quantities are natural numbers, matching the positive-integer
columns. The user is an explicit parameter of every view.

`ViewCart` and `Checkout` read prices, so they require every cart row to name an
existing item. The cascading foreign key from cart rows to items guarantees this.
The other views need nothing of the store. Each `...PreservesValid` lemma assumes
`Valid` before the step and proves it after.

## Model

| member | source | states |
|---|---|---|
| Models.StatusCode | myapp/models.py:67-89 | each of the five status choices has a non-empty stored code that fits the 20-character status column |
| Models.ParseStatus | myapp/models.py:67-73 | a stored code is accepted exactly when it is the code of one of the five statuses, and it reads back as that status |
| Models.EmptyStore | myapp/models.py:37-56 | a database with no carts and no orders satisfies every constraint of the invariant |
| Models.CartLineTotal | myapp/models.py:58-60 | a cart line's total is its item's current catalogue price times its quantity; `Models.SubtotalTracksPrice` proves that a price edit moves every cart subtotal through it |
| Models.OrderLineTotal | myapp/models.py:133-135 | an order line's total is its frozen `price_at_order` times its quantity; `CheckoutViews.SnapshotTotal` ties it to the cart line it was copied from, and `Models.PriceSnapshotFrozen` shows a later price edit cannot move it |
| Models.SubtotalTracksPrice | myapp/models.py:58-60 | a cart line total is recomputed from the item's current price: after a price edit, a user's subtotal moves by the price change times the quantity of that item in their cart |
| Models.PriceSnapshotFrozen | myapp/models.py:122-135 | a later price edit changes no order's total and keeps every order's total equal to the sum of its lines, while carts are re-priced |
| Queries.Select | myapp/views.py:56 | a filtered query returns exactly the rows that match the filter, and never more rows than the table holds |
| Queries.FirstIndex | myapp/views.py:81 | the lookup finds a matching row exactly when one exists, and the one it finds is the first match; in a valid store at most one row matches, so it is the row `get_object_or_404` returns |
| Queries.Listing | myapp/views.py:56 | the user's cart query holds exactly the rows of the table that belong to that user; its `-added_at` order (myapp/models.py:54) is stated by `Queries.ListingNewestFirst` |
| Queries.ListingNewestFirst | myapp/models.py:49-54 | a user's cart listing holds exactly that user's rows, with strictly decreasing `added_at` |
| Queries.AtMostOneRowPerPair | myapp/models.py:52-53 | in a valid store, at most one cart row exists per (user, item) pair |
| Queries.SelectUserSum | myapp/views.py:56-57 | summing the line totals of the user's filtered rows gives that user's subtotal over the whole cart table, where other users' rows count zero |
| CartViews.AddToCart | myapp/views.py:65-78 | fails with NotFound exactly when the item is missing or unavailable; otherwise the user's quantity of that item rises by exactly one, and the catalogue and orders are unchanged |
| CartViews.AddToCartCreatesRow | myapp/views.py:67-71 | a pair not yet in the cart gets exactly one row, with quantity 1, at the head of the user's listing; the user's earlier lines follow it unchanged and in their previous order |
| CartViews.AddToCartIncrements | myapp/views.py:73-75 | the existing single row of a pair is kept with its quantity plus one; no second row appears |
| CartViews.AddToCartKeepsListing | myapp/models.py:49-54 | incrementing a line changes no row's key or `added_at`, so the listing keeps its rows in place |
| CartViews.AddToCartPreservesValid | myapp/views.py:65-75 | adding keeps the store valid and leaves exactly one row for the (user, item) pair |
| CartViews.AddToCartLeavesOthers | myapp/views.py:67-75 | adding leaves every other user's cart, and the quantity of every other (user, item) pair, unchanged |
| CartViews.RemoveFromCart | myapp/views.py:80-84 | fails with NotFound exactly when no row has that id and belongs to the user; otherwise it deletes the rows with that id and keeps every other row |
| CartViews.RemoveFromCartPreservesValid | myapp/views.py:81-82 | removing keeps the store valid and deletes exactly one row |
| CartViews.RemoveFromCartLeavesOthers | myapp/views.py:81-82 | removing one's own line leaves every other user's cart unchanged |
| CartViews.UpdateCartQuantity | myapp/views.py:87-101 | a non-POST request or a quantity below 1 changes nothing; otherwise NotFound when the row is not the user's, else only that row's quantity is overwritten and nothing else about any row changes |
| CartViews.UpdateCartQuantityPreservesValid | myapp/views.py:92-97 | updating keeps every quantity at least 1 and the store valid, and leaves other users' carts unchanged |
| CartViews.ViewCart | myapp/views.py:55-63 | the page lists exactly the user's rows, newest first, and its subtotal is the sum of line totals over the user's rows only |
| CheckoutViews.Snapshot | myapp/views.py:128-134 | one order line per cart line, in the same order, copying item and quantity and freezing the item's current price |
| CheckoutViews.SnapshotTotal | myapp/models.py:133-135 | the frozen order lines' totals add up to the cart lines' totals they were copied from |
| CheckoutViews.Checkout | myapp/views.py:103-155 | an empty cart ends in CartEmpty; a GET or an invalid form ends in the form page with the user's lines and subtotal; a valid submission adds exactly one order, under a fresh id, for the user, with status RECEIVED, the form's contact fields, and a total equal to the subtotal; the user's rows are deleted and every other row is kept |
| CheckoutViews.CheckoutOrderTotal | myapp/views.py:111-134 | the new order's id was unused, and the sum of the new order's line totals equals the cart subtotal it was created with |
| CheckoutViews.CheckoutPreservesValid | myapp/views.py:117-137 | after checkout the store stays valid: the remaining cart rows keep every cart constraint, and every order, old or new, still totals its lines |
| CheckoutViews.CheckoutSnapshotsCart | myapp/views.py:127-134 | the new order lines are appended after the existing ones, one per listed cart line, with that line's item and quantity and the item's price at checkout |
| CheckoutViews.CheckoutClearsOnlyOwnCart | myapp/views.py:136-137 | after checkout the user's cart is empty and every other user's cart is exactly as before |
| CheckoutViews.CheckoutTwice | myapp/views.py:105-109 | submitting checkout again right after a success finds an empty cart and creates no second order |
| CheckoutViews.OrderConfirmation | myapp/views.py:157-160 | an order is returned only when it exists and belongs to the requesting user; NotFound otherwise |
| CheckoutViews.ConfirmationAfterCheckout | myapp/views.py:159 | the new order's confirmation opens for the user who placed it, with the cart subtotal and status RECEIVED, and for no other user |

## Left out

- Rendering, messages and redirects: the views' pages and redirect targets are reduced to the outcome values above.
- Authentication: the user is a parameter. `view_cart`, `add_to_cart`, `remove_from_cart` and `update_cart_quantity` lack `@login_required`; only `checkout` and `order_confirmation` carry it. What they do for an anonymous user is not modelled.
- Multiple matches in a lookup: `get`, `get_or_create` and `get_object_or_404` raise `MultipleObjectsReturned` when more than one row matches, while `FirstIndex` takes the first. The two agree whenever at most one row matches, which the primary key and `unique_together` guarantee (`Valid`, `Queries.AtMostOneRowPerPair`); the views carry no `Valid` requirement, so on a store breaking those keys the model answers where the source raises.
- Form validation: `CheckoutForm` field rules and e-mail syntax are library code. Checkout takes a verdict and the cleaned contact fields. The GET pre-fill of name and e-mail is rendering only.
- `update_cart_quantity`: a quantity that is not an integer makes `int()` raise. That error path is not modelled; the quantity arrives as an integer or is absent, which means 1. `cart_item_id` is handed to the lookup unparsed (myapp/views.py:89, 95). The model's line id is a natural number, so only well-formed ids are modelled. A missing id matches no row and ends in NotFound, which any unused id shows. An empty or non-numeric id, with a quantity of at least 1, makes the integer-field lookup raise `ValueError`, a server error rather than a 404. That path is not modelled.
- Transactions and concurrency: checkout is one atomic transition. The source has no transaction boundary, so a crash mid-way, or two concurrent submissions, could leave a partial order or duplicate it. Neither is modelled.
- Item availability at checkout: the source does not re-check it, and neither does the model. An item made unavailable after being added is still ordered.
- Timestamps: `added_at` is a tick of a store clock, and only its order matters. The clock never repeats a tick. Two rows stamped in the same instant would have no defined listing order in the source. `updated_at` and `created_at` are not modelled. Nor is the `-created_at` ordering of orders and reservations.
- Column widths (`max_digits`, `max_length` other than the status column) and database-level integer limits are not modelled. Amounts are unbounded integers.
- `index`, `menu`, `register`, the `Reservation` and `Category` models, the admin registrations, the URL table and the WSGI entry point are pass-through code with no behaviour to state.
- Staff changes of an order's status and deletion of items are admin actions and not modelled. The one catalogue edit modelled is a price change (`Models.EditItemPrice`), used to state the price-freeze property.
