/** The checkout view and the order confirmation page. Checkout reads the user's
    cart, validates the contact form, writes one order with one priced line per cart
    line, and clears the user's cart; the whole sequence is one atomic step here. */
module CheckoutViews {
  import opened Results
  import opened Models
  import opened Queries

  /** The outcome of validating the checkout form. Which submissions are valid is
      decided by the form library; the model takes the verdict and the cleaned fields. */
  datatype CheckoutForm = CheckoutForm(valid: bool, contact: Contact)

  datatype CheckoutRequest =
    | ShowForm                      // GET
    | Submit(form: CheckoutForm)    // POST

  datatype CheckoutOutcome =
    | CartEmpty                                        // warning, redirect to the menu
    | FormPage(lines: seq<CartItem>, subtotal: Cents)  // the checkout page (again), nothing written
    | Placed(store: Store, order: OrderId)             // redirect to the confirmation of `order`

  /** One order line per cart line, in the given order, each freezing the item's
      current price. */
  function Snapshot(items: map<ItemId, Item>, lines: seq<CartItem>, oid: OrderId): (r: seq<OrderItem>)
    requires Priced(items, lines)
    ensures |r| == |lines|
    ensures forall k :: 0 <= k < |lines| ==>
      && r[k].order == oid
      && r[k].item == lines[k].item
      && r[k].quantity == lines[k].quantity
      && r[k].priceAtOrder == items[lines[k].item].price
      && r[k].specialRequests == ""
  {
    if lines == [] then []
    else [OrderItem(oid, lines[0].item, lines[0].quantity, items[lines[0].item].price, "")]
         + Snapshot(items, lines[1..], oid)
  }

  /** `checkout`. */
  function Checkout(s: Store, u: UserId, req: CheckoutRequest): (r: CheckoutOutcome)
    requires Priced(s.items, s.cart)
    ensures r.CartEmpty? <==> forall k :: 0 <= k < |s.cart| ==> s.cart[k].user != u
    ensures r.FormPage? <==> !r.CartEmpty? && (req.ShowForm? || !req.form.valid)
    ensures r.FormPage? ==> r.subtotal == Subtotal(s.items, s.cart, u)
    ensures r.FormPage? ==> forall x :: x in r.lines <==> x in s.cart && x.user == u
    ensures r.FormPage? ==> r.lines == Listing(s.cart, u)
    ensures r.Placed? ==>
      && r.order == s.nextOrderId
      && r.store.orders == s.orders[r.order := Order(u, NewOrderStatus, Subtotal(s.items, s.cart, u), req.form.contact)]
      && r.store.items == s.items
      && r.store.nextOrderId > r.order
      && r.store.nextCartItemId == s.nextCartItemId
      && r.store.clock == s.clock
    ensures r.Placed? ==> forall x :: x in r.store.cart <==> x in s.cart && x.user != u
  {
    var lines := Listing(s.cart, u);
    if lines == [] then
      assert forall k :: 0 <= k < |s.cart| ==> s.cart[k] !in lines;
      CartEmpty
    else
      ListingSum(s.items, s.cart, u);
      var subtotal := SumLineTotals(s.items, lines);
      match req
      case ShowForm => FormPage(lines, subtotal)
      case Submit(form) =>
        if !form.valid then FormPage(lines, subtotal)
        else
          var oid := s.nextOrderId;
          var order := Order(u, NewOrderStatus, subtotal, form.contact);
          Placed(s.(orders := s.orders[oid := order],
                    orderItems := s.orderItems + Snapshot(s.items, lines, oid),
                    cart := Select(s.cart, UserIsNot(u)),
                    nextOrderId := oid + 1),
                 oid)
  }

  /** `order_confirmation`: an order is shown only to the user who placed it. */
  function OrderConfirmation(s: Store, u: UserId, oid: OrderId): (r: Result<Order>)
    ensures r.Ok? <==> oid in s.orders && s.orders[oid].user == u
    ensures r.Ok? ==> r.value == s.orders[oid]
  {
    if oid in s.orders && s.orders[oid].user == u then Ok(s.orders[oid]) else NotFound
  }

  // ---------------------------------------------------------------------------
  // Totals

  /** The order lines' totals add up to the cart lines' totals they were copied from. */
  lemma {:induction false} SnapshotTotal(items: map<ItemId, Item>, lines: seq<CartItem>, oid: OrderId)
    requires Priced(items, lines)
    ensures SumOrderLines(Snapshot(items, lines, oid)) == SumLineTotals(items, lines)
    ensures OrderTotal(Snapshot(items, lines, oid), oid) == SumLineTotals(items, lines)
  {
    if lines != [] {
      assert Priced(items, lines[1..]);
      SnapshotTotal(items, lines[1..], oid);
      assert Snapshot(items, lines, oid)[1..] == Snapshot(items, lines[1..], oid);
    }
  }

  lemma {:induction false} OrderTotalConcat(a: seq<OrderItem>, b: seq<OrderItem>, oid: OrderId)
    ensures OrderTotal(a + b, oid) == OrderTotal(a, oid) + OrderTotal(b, oid)
  {
    if a == [] {
      assert a + b == b;
    } else {
      assert (a + b)[1..] == a[1..] + b;
      OrderTotalConcat(a[1..], b, oid);
    }
  }

  /** Lines of other orders contribute nothing to an order's total. */
  lemma {:induction false} OrderTotalOfOthers(lines: seq<OrderItem>, oid: OrderId)
    requires forall k :: 0 <= k < |lines| ==> lines[k].order != oid
    ensures OrderTotal(lines, oid) == 0
  {
    if lines != [] {
      OrderTotalOfOthers(lines[1..], oid);
    }
  }

  // ---------------------------------------------------------------------------
  // Checkout guarantees

  /** A successful checkout writes its order under a key no order used before, and the
      new order's total is the cart subtotal and the sum of its freshly written lines. */
  lemma CheckoutOrderTotal(s: Store, u: UserId, req: CheckoutRequest)
    requires Valid(s)
    ensures Checkout(s, u, req).Placed? ==>
      var r := Checkout(s, u, req);
      && r.order !in s.orders
      && OrderTotal(r.store.orderItems, r.order) == Subtotal(s.items, s.cart, u)
  {
    var r := Checkout(s, u, req);
    if r.Placed? {
      var oid := r.order;
      var lines := Listing(s.cart, u);
      ListingSum(s.items, s.cart, u);
      var snap := Snapshot(s.items, lines, oid);
      assert r.store.orderItems == s.orderItems + snap;
      // the new key is not yet used by any order line
      OrderTotalOfOthers(s.orderItems, oid);
      SnapshotTotal(s.items, lines, oid);
      OrderTotalConcat(s.orderItems, snap, oid);
    }
  }

  /** A successful checkout leaves the store valid: the remaining cart rows still satisfy
      every cart constraint, and every order, old or new, still totals its lines. */
  lemma CheckoutPreservesValid(s: Store, u: UserId, req: CheckoutRequest)
    requires Valid(s)
    ensures Checkout(s, u, req).Placed? ==> Valid(Checkout(s, u, req).store)
  {
    CheckoutKeepsCartValid(s, u, req);
    CheckoutKeepsOrdersValid(s, u, req);
  }

  lemma CheckoutKeepsCartValid(s: Store, u: UserId, req: CheckoutRequest)
    requires Valid(s)
    ensures Checkout(s, u, req).Placed? ==> CartValid(Checkout(s, u, req).store)
  {
    var r := Checkout(s, u, req);
    if r.Placed? {
      assert r.store.cart == Select(s.cart, UserIsNot(u));
      SelectCartValid(s, UserIsNot(u));
    }
  }

  lemma CheckoutKeepsOrdersValid(s: Store, u: UserId, req: CheckoutRequest)
    requires Valid(s)
    ensures Checkout(s, u, req).Placed? ==> OrdersValid(Checkout(s, u, req).store)
  {
    var r := Checkout(s, u, req);
    if r.Placed? {
      var oid := r.order;
      var lines := Listing(s.cart, u);
      var snap := Snapshot(s.items, lines, oid);
      assert r.store.orderItems == s.orderItems + snap;
      CheckoutOrderTotal(s, u, req);
      forall o | o in r.store.orders
        ensures r.store.orders[o].totalAmount == OrderTotal(r.store.orderItems, o)
      {
        if o != oid {
          OrderTotalConcat(s.orderItems, snap, o);
          OrderTotalOfOthers(snap, o);
        }
      }
      forall k | 0 <= k < |r.store.orderItems|
        ensures && r.store.orderItems[k].order in r.store.orders
                && r.store.orderItems[k].item in r.store.items
                && 1 <= r.store.orderItems[k].quantity
      {
        if k >= |s.orderItems| {
          var j := k - |s.orderItems|;
          assert r.store.orderItems[k] == snap[j];
          assert lines[j] in lines;
        }
      }
    }
  }

  /** Appending a snapshot to existing order lines keeps them and adds one line per cart line. */
  lemma AppendSnapshot(prefix: seq<OrderItem>, items: map<ItemId, Item>, l: seq<CartItem>, oid: OrderId)
    requires Priced(items, l)
    ensures var all := prefix + Snapshot(items, l, oid);
      && |all| == |prefix| + |l|
      && all[..|prefix|] == prefix
      && forall k :: 0 <= k < |l| ==>
           && all[|prefix| + k].order == oid
           && all[|prefix| + k].item == l[k].item
           && all[|prefix| + k].quantity == l[k].quantity
           && all[|prefix| + k].priceAtOrder == items[l[k].item].price
  {
    var snap := Snapshot(items, l, oid);
    var all := prefix + snap;
    assert all[..|prefix|] == prefix;
    forall k | 0 <= k < |l|
      ensures all[|prefix| + k] == snap[k]
    {
    }
  }

  /** A successful checkout copies the user's cart, line by line in listing order, into
      the new order, each line with its quantity and the item's price at that moment,
      and appends nothing else. */
  lemma CheckoutSnapshotsCart(s: Store, u: UserId, req: CheckoutRequest)
    requires Priced(s.items, s.cart)
    ensures Checkout(s, u, req).Placed? ==>
      var r := Checkout(s, u, req);
      var l := Listing(s.cart, u);
      && Priced(s.items, l)
      && |r.store.orderItems| == |s.orderItems| + |l|
      && r.store.orderItems[..|s.orderItems|] == s.orderItems
      && forall k :: 0 <= k < |l| ==>
           && r.store.orderItems[|s.orderItems| + k].order == r.order
           && r.store.orderItems[|s.orderItems| + k].item == l[k].item
           && r.store.orderItems[|s.orderItems| + k].quantity == l[k].quantity
           && r.store.orderItems[|s.orderItems| + k].priceAtOrder == s.items[l[k].item].price
  {
    var r := Checkout(s, u, req);
    if r.Placed? {
      var l := Listing(s.cart, u);
      ListingSum(s.items, s.cart, u);
      assert r.store.orderItems == s.orderItems + Snapshot(s.items, l, r.order);
      AppendSnapshot(s.orderItems, s.items, l, r.order);
    }
  }

  /** After a successful checkout the user's cart is empty and every other user's cart
      is exactly as before. */
  lemma CheckoutClearsOnlyOwnCart(s: Store, u: UserId, req: CheckoutRequest)
    requires Priced(s.items, s.cart)
    ensures Checkout(s, u, req).Placed? ==>
      var c := Checkout(s, u, req).store.cart;
      && Select(c, UserIs(u)) == []
      && forall v :: v != u ==> Select(c, UserIs(v)) == Select(s.cart, UserIs(v))
  {
    var r := Checkout(s, u, req);
    if r.Placed? {
      var c := r.store.cart;
      assert c == Select(s.cart, UserIsNot(u));
      forall k | 0 <= k < |c|
        ensures !Matches(UserIs(u), c[k])
      {
        assert c[k] in c;
      }
      SelectNone(c, UserIs(u));
      forall v | v != u
        ensures Select(c, UserIs(v)) == Select(s.cart, UserIs(v))
      {
        SelectDropUnseen(s.cart, UserIsNot(u), UserIs(v));
      }
    }
  }

  /** Submitting checkout a second time right after a success finds the cart empty and
      writes no second order. */
  lemma CheckoutTwice(s: Store, u: UserId, req: CheckoutRequest, req': CheckoutRequest)
    requires Priced(s.items, s.cart)
    ensures Checkout(s, u, req).Placed? ==>
      var s' := Checkout(s, u, req).store;
      Priced(s'.items, s'.cart) && Checkout(s', u, req') == CartEmpty
  {
    var r := Checkout(s, u, req);
    if r.Placed? {
      SelectPriced(s.items, s.cart, UserIsNot(u));
      var c := r.store.cart;
      forall k | 0 <= k < |c|
        ensures c[k].user != u
      {
        assert c[k] in c;
      }
    }
  }

  /** The confirmation page of a new order opens for the user who placed it, showing
      the cart subtotal and status RECEIVED, and for nobody else. */
  lemma ConfirmationAfterCheckout(s: Store, u: UserId, req: CheckoutRequest, v: UserId)
    requires Priced(s.items, s.cart)
    ensures Checkout(s, u, req).Placed? ==>
      var r := Checkout(s, u, req);
      var c := OrderConfirmation(r.store, v, r.order);
      && (c.Ok? <==> v == u)
      && (c.Ok? ==> c.value.totalAmount == Subtotal(s.items, s.cart, u) && c.value.status == Received)
  {
  }
}
