/** The persistent entities of the restaurant app, seen as immutable values:
    the catalogue, the per-user cart rows, and the orders with their priced lines.
    The database becomes one `Store` value; every view is a function from a
    store to a new store. */
module Models {
  import opened Results

  type UserId = nat
  type ItemId = nat
  type CategoryId = nat
  type CartItemId = nat
  type OrderId = nat

  /** Money with two decimal places, counted in whole cents. A price of 12.50 is 1250.
      Decimal values with two places add and multiply by whole quantities exactly,
      so integer cents lose nothing. The database allows negative amounts. */
  type Cents = int

  /** A menu entry. Name, description, image and the featured flag are not read by any
      cart or checkout logic and are left out. */
  datatype Item = Item(price: Cents, available: bool, category: CategoryId)

  /** One cart line. `addedAt` is the creation instant, abstracted to a tick of the store's clock. */
  datatype CartItem = CartItem(id: CartItemId, user: UserId, item: ItemId, quantity: nat, addedAt: nat)

  /** The five status choices of an order. */
  datatype Status = Received | Preparing | Ready | Completed | Cancelled

  /** The status every new order is created with. */
  const NewOrderStatus: Status := Received

  /** Width of the status column. */
  const StatusMaxLength: nat := 20

  /** The contact details copied onto an order from the checkout form. */
  datatype Contact = Contact(customerName: string, email: string, phone: string, address: string, specialInstructions: string)

  datatype Order = Order(user: UserId, status: Status, totalAmount: Cents, contact: Contact)

  /** One line of a placed order; `priceAtOrder` is the unit price captured at checkout. */
  datatype OrderItem = OrderItem(order: OrderId, item: ItemId, quantity: nat, priceAtOrder: Cents, specialRequests: string)

  /** The whole database. Cart rows are kept in creation order (oldest first).
      `nextCartItemId` and `nextOrderId` play the auto-increment primary keys;
      `clock` is the source of `addedAt` stamps. */
  datatype Store = Store(
    items: map<ItemId, Item>,
    cart: seq<CartItem>,
    orders: map<OrderId, Order>,
    orderItems: seq<OrderItem>,
    nextCartItemId: CartItemId,
    nextOrderId: OrderId,
    clock: nat)

  // ---------------------------------------------------------------------------
  // Order status: stored code

  /** The value stored in the status column. */
  function StatusCode(st: Status): (code: string)
    ensures 0 < |code| <= StatusMaxLength
  {
    match st
    case Received => "RECEIVED"
    case Preparing => "PREPARING"
    case Ready => "READY"
    case Completed => "COMPLETED"
    case Cancelled => "CANCELLED"
  }

  /** The `choices` check on the status column, as form validation and `full_clean`
      apply it: a string is accepted exactly when it is one of the five codes. */
  function ParseStatus(code: string): (r: Option<Status>)
    ensures forall st :: r == Some(st) <==> code == StatusCode(st)
  {
    if code == "RECEIVED" then Some(Received)
    else if code == "PREPARING" then Some(Preparing)
    else if code == "READY" then Some(Ready)
    else if code == "COMPLETED" then Some(Completed)
    else if code == "CANCELLED" then Some(Cancelled)
    else None
  }

  // ---------------------------------------------------------------------------
  // Derived amounts

  /** Every row names an item that exists: the foreign key with cascading delete. */
  predicate Priced(items: map<ItemId, Item>, rows: seq<CartItem>)
  {
    forall i :: 0 <= i < |rows| ==> rows[i].item in items
  }

  /** `CartItem.line_total`: recomputed from the item's current price on every read. */
  function CartLineTotal(items: map<ItemId, Item>, row: CartItem): Cents
    requires row.item in items
  {
    items[row.item].price * row.quantity
  }

  /** `OrderItem.line_total`: uses the captured price, never the catalogue. */
  function OrderLineTotal(line: OrderItem): Cents
  {
    line.priceAtOrder * line.quantity
  }

  /** Sum of the line totals of `rows`, in the order given. */
  function SumLineTotals(items: map<ItemId, Item>, rows: seq<CartItem>): Cents
    requires Priced(items, rows)
  {
    if rows == [] then 0 else CartLineTotal(items, rows[0]) + SumLineTotals(items, rows[1..])
  }

  /** The cart subtotal of user `u`, read off the whole cart table: every row
      contributes its line total when it is `u`'s and nothing otherwise. */
  function Subtotal(items: map<ItemId, Item>, cart: seq<CartItem>, u: UserId): Cents
    requires Priced(items, cart)
  {
    if cart == [] then 0
    else (if cart[0].user == u then CartLineTotal(items, cart[0]) else 0) + Subtotal(items, cart[1..], u)
  }

  /** Total quantity of `item` in `u`'s cart, over the whole cart table. */
  function Quantity(cart: seq<CartItem>, u: UserId, item: ItemId): nat
  {
    if cart == [] then 0
    else (if cart[0].user == u && cart[0].item == item then cart[0].quantity else 0) + Quantity(cart[1..], u, item)
  }

  /** Sum of the line totals of a sequence of order lines. */
  function SumOrderLines(lines: seq<OrderItem>): Cents
  {
    if lines == [] then 0 else OrderLineTotal(lines[0]) + SumOrderLines(lines[1..])
  }

  /** Sum of the line totals of the lines that belong to order `oid`. */
  function OrderTotal(lines: seq<OrderItem>, oid: OrderId): Cents
  {
    if lines == [] then 0
    else (if lines[0].order == oid then OrderLineTotal(lines[0]) else 0) + OrderTotal(lines[1..], oid)
  }

  // ---------------------------------------------------------------------------
  // Store invariant

  /** Two cart rows, the first created before the second: distinct primary keys,
      distinct (user, item) pairs, strictly increasing creation stamps. */
  predicate Ordered(x: CartItem, y: CartItem)
  {
    && x.id != y.id
    && (x.user != y.user || x.item != y.item)
    && x.addedAt < y.addedAt
  }

  ghost predicate CartValid(s: Store)
  {
    && Priced(s.items, s.cart)
    && (forall i :: 0 <= i < |s.cart| ==>
          && 1 <= s.cart[i].quantity
          && s.cart[i].id < s.nextCartItemId
          && s.cart[i].addedAt < s.clock)
    && (forall i, j :: 0 <= i < j < |s.cart| ==> Ordered(s.cart[i], s.cart[j]))
  }

  ghost predicate OrdersValid(s: Store)
  {
    && (forall oid :: oid in s.orders ==> oid < s.nextOrderId)
    && (forall k :: 0 <= k < |s.orderItems| ==>
          && s.orderItems[k].order in s.orders
          && s.orderItems[k].item in s.items
          && 1 <= s.orderItems[k].quantity)
    && (forall oid :: oid in s.orders ==> s.orders[oid].totalAmount == OrderTotal(s.orderItems, oid))
  }

  /** What every reachable store satisfies: the schema's keys and constraints, the
      quantities the views keep positive, and each order's total matching its lines. */
  ghost predicate Valid(s: Store)
  {
    CartValid(s) && OrdersValid(s)
  }

  /** The empty database. */
  function EmptyStore(items: map<ItemId, Item>): (s: Store)
    ensures Valid(s)
  {
    Store(items, [], map[], [], 0, 0, 0)
  }

  // ---------------------------------------------------------------------------
  // Catalogue edits (made through the admin site)

  /** Changes the price of an existing menu item. */
  function EditItemPrice(s: Store, id: ItemId, price: Cents): (r: Result<Store>)
    ensures r.NotFound? <==> id !in s.items
    ensures r.Ok? ==> r.value.items.Keys == s.items.Keys && r.value.items[id].price == price
    ensures r.Ok? ==> forall j :: j in s.items && j != id ==> r.value.items[j] == s.items[j]
    ensures r.Ok? ==> r.value.cart == s.cart && r.value.orders == s.orders && r.value.orderItems == s.orderItems
  {
    if id !in s.items then NotFound
    else Ok(s.(items := s.items[id := s.items[id].(price := price)]))
  }

  /** The cart line total follows the catalogue: after a price edit, `u`'s subtotal moves
      by the price difference times the quantity of that item in `u`'s cart. */
  lemma {:induction false} SubtotalTracksPrice(items: map<ItemId, Item>, cart: seq<CartItem>, u: UserId, id: ItemId, price: Cents)
    requires Priced(items, cart) && id in items
    ensures Priced(items[id := items[id].(price := price)], cart)
    ensures Subtotal(items[id := items[id].(price := price)], cart, u)
         == Subtotal(items, cart, u) + (price - items[id].price) * Quantity(cart, u, id)
  {
    var items' := items[id := items[id].(price := price)];
    if cart != [] {
      var x := cart[0];
      assert Priced(items, cart[1..]);
      SubtotalTracksPrice(items, cart[1..], u, id, price);
      var old_ := if x.user == u then CartLineTotal(items, x) else 0;
      var new_ := if x.user == u then CartLineTotal(items', x) else 0;
      var moved := if x.user == u && x.item == id then x.quantity else 0;
      assert Quantity(cart, u, id) == moved + Quantity(cart[1..], u, id);
      if x.user == u && x.item == id {
        ScaleDifference(items[id].price, price, x.quantity);
      }
      assert new_ == old_ + (price - items[id].price) * moved;
      assert Subtotal(items', cart, u) == new_ + Subtotal(items', cart[1..], u);
      assert Subtotal(items, cart, u) == old_ + Subtotal(items, cart[1..], u);
      ScaleSum(price - items[id].price, moved, Quantity(cart[1..], u, id));
    }
  }

  lemma ScaleDifference(a: int, b: int, q: int)
    ensures b * q == a * q + (b - a) * q
  {
  }

  lemma ScaleSum(d: int, m: int, n: int)
    ensures d * (m + n) == d * m + d * n
  {
  }

  /** A price edit leaves every order valid and every order total unchanged, while the
      carts are re-priced: orders hold a frozen copy of the prices. */
  lemma PriceSnapshotFrozen(s: Store, id: ItemId, price: Cents, u: UserId)
    requires Valid(s)
    ensures EditItemPrice(s, id, price).Ok? ==>
      var s' := EditItemPrice(s, id, price).value;
      && Valid(s')
      && (forall oid :: oid in s.orders ==> s'.orders[oid].totalAmount == OrderTotal(s'.orderItems, oid) == OrderTotal(s.orderItems, oid))
      && Subtotal(s'.items, s'.cart, u) == Subtotal(s.items, s.cart, u) + (price - s.items[id].price) * Quantity(s.cart, u, id)
  {
    if id in s.items {
      SubtotalTracksPrice(s.items, s.cart, u, id, price);
    }
  }
}
