/** The cart views: add an item, remove a line, change a line's quantity, and show
    the cart with its subtotal. The requesting user is an explicit parameter; the
    redirect or page each view answers with is reduced to the store it leaves behind
    or to `NotFound`. */
module CartViews {
  import opened Results
  import opened Models
  import opened Queries

  /** What `get_object_or_404(Item, id=..., available=True)` accepts. */
  predicate OnMenu(items: map<ItemId, Item>, id: ItemId)
  {
    id in items && items[id].available
  }

  /** The row a new pair gets: quantity 1, the next primary key, stamped now. */
  function NewRow(s: Store, u: UserId, itemId: ItemId): CartItem
  {
    CartItem(s.nextCartItemId, u, itemId, 1, s.clock)
  }

  /** `add_to_cart`: `get_or_create` on (user, item) with quantity 1, and a
      one-step increment when the row already existed. */
  function AddToCart(s: Store, u: UserId, itemId: ItemId): (r: Result<Store>)
    ensures r.NotFound? <==> !OnMenu(s.items, itemId)
    ensures r.Ok? ==> r.value.items == s.items && r.value.orders == s.orders && r.value.orderItems == s.orderItems
    ensures r.Ok? ==> Quantity(r.value.cart, u, itemId) == Quantity(s.cart, u, itemId) + 1
  {
    if !OnMenu(s.items, itemId) then NotFound
    else match FirstIndex(s.cart, PairIs(u, itemId))
      case None =>
        var row := NewRow(s, u, itemId);
        QuantityAppend(s.cart, row, u, itemId);
        Ok(s.(cart := s.cart + [row], nextCartItemId := s.nextCartItemId + 1, clock := s.clock + 1))
      case Some(i) =>
        var row := s.cart[i].(quantity := s.cart[i].quantity + 1);
        QuantityUpdate(s.cart, i, row, u, itemId);
        Ok(s.(cart := s.cart[i := row]))
  }

  /** `remove_from_cart`: look the line up by key and owner, then delete it by key. */
  function RemoveFromCart(s: Store, u: UserId, id: CartItemId): (r: Result<Store>)
    ensures r.NotFound? <==> forall k :: 0 <= k < |s.cart| ==> !(s.cart[k].id == id && s.cart[k].user == u)
    ensures r.Ok? ==> forall x :: x in r.value.cart <==> x in s.cart && x.id != id
    ensures r.Ok? ==> r.value.items == s.items && r.value.orders == s.orders && r.value.orderItems == s.orderItems
  {
    match FirstIndex(s.cart, Owned(id, u))
    case None => NotFound
    case Some(_) => Ok(s.(cart := Select(s.cart, IdIsNot(id))))
  }

  /** The quantity field of the update form: missing means 1. Text that is not an
      integer makes `int()` raise; that path is not part of this model. */
  function RequestedQuantity(posted: Option<int>): int
  {
    match posted
    case None => 1
    case Some(q) => q
  }

  /** `update_cart_quantity`: nothing happens unless the request is a POST with a
      quantity of at least 1; otherwise the owned line's quantity is overwritten. */
  function UpdateCartQuantity(s: Store, u: UserId, isPost: bool, id: CartItemId, posted: Option<int>): (r: Result<Store>)
    ensures !isPost || RequestedQuantity(posted) < 1 ==> r == Ok(s)
    ensures r.NotFound? <==>
      isPost && RequestedQuantity(posted) >= 1 && forall k :: 0 <= k < |s.cart| ==> !(s.cart[k].id == id && s.cart[k].user == u)
    ensures r.Ok? ==> SameRows(r.value.cart, s.cart)
    ensures r.Ok? ==> r.value.items == s.items && r.value.orders == s.orders && r.value.orderItems == s.orderItems
    ensures r.Ok? && isPost && RequestedQuantity(posted) >= 1 && (forall p, q :: 0 <= p < q < |s.cart| ==> s.cart[p].id != s.cart[q].id) ==>
      forall k :: 0 <= k < |s.cart| ==>
        r.value.cart[k].quantity == (if s.cart[k].id == id then RequestedQuantity(posted) else s.cart[k].quantity)
  {
    var quantity := RequestedQuantity(posted);
    if !isPost || quantity < 1 then Ok(s)
    else match FirstIndex(s.cart, Owned(id, u))
      case None => NotFound
      case Some(i) => Ok(s.(cart := s.cart[i := s.cart[i].(quantity := quantity)]))
  }

  /** `view_cart`: the user's lines in listing order and their subtotal, summed
      line by line in that order. */
  method ViewCart(s: Store, u: UserId) returns (lines: seq<CartItem>, subtotal: Cents)
    requires Priced(s.items, s.cart)
    ensures forall x :: x in lines <==> x in s.cart && x.user == u
    ensures CartValid(s) ==> forall i, j :: 0 <= i < j < |lines| ==> lines[i].addedAt > lines[j].addedAt
    ensures subtotal == Subtotal(s.items, s.cart, u)
  {
    lines := Listing(s.cart, u);
    ListingSum(s.items, s.cart, u);
    subtotal := 0;
    var k := 0;
    while k < |lines|
      invariant 0 <= k <= |lines|
      invariant Priced(s.items, lines[..k])
      invariant subtotal == SumLineTotals(s.items, lines[..k])
    {
      SumLineTotalsStep(s.items, lines, k);
      subtotal := subtotal + CartLineTotal(s.items, lines[k]);
      k := k + 1;
    }
    assert lines[..k] == lines;
    if CartValid(s) {
      ListingNewestFirst(s, u);
    }
  }

  // ---------------------------------------------------------------------------
  // add_to_cart

  /** A pair not yet in the cart gets exactly one row, with quantity 1; it heads the
      user's listing, and the user's earlier lines follow unchanged and in place. */
  lemma AddToCartCreatesRow(s: Store, u: UserId, itemId: ItemId)
    requires forall k :: 0 <= k < |s.cart| ==> !(s.cart[k].user == u && s.cart[k].item == itemId)
    ensures AddToCart(s, u, itemId).Ok? ==>
      var c := AddToCart(s, u, itemId).value.cart;
      && Select(c, PairIs(u, itemId)) == [NewRow(s, u, itemId)]
      && Listing(c, u) != []
      && Listing(c, u)[0] == NewRow(s, u, itemId)
      && Listing(c, u)[1..] == Listing(s.cart, u)
  {
    if OnMenu(s.items, itemId) {
      var row := NewRow(s, u, itemId);
      var f := PairIs(u, itemId);
      assert FirstIndex(s.cart, f).None?;
      var c := AddToCart(s, u, itemId).value.cart;
      assert c == s.cart + [row];
      SelectNone(s.cart, f);
      SelectAppend(s.cart, row, f);
      SelectAppend(s.cart, row, UserIs(u));
      var m := Select(s.cart, UserIs(u));
      assert Select(c, UserIs(u)) == m + [row];
      assert Listing(c, u)[0] == (m + [row])[|m|];
      assert Reverse(m + [row])[1..] == Reverse(m);
    }
  }

  /** A pair already in the cart keeps its single row, with the quantity one higher. */
  lemma AddToCartIncrements(s: Store, u: UserId, itemId: ItemId, row: CartItem)
    requires Select(s.cart, PairIs(u, itemId)) == [row]
    ensures AddToCart(s, u, itemId).Ok? ==>
      Select(AddToCart(s, u, itemId).value.cart, PairIs(u, itemId)) == [row.(quantity := row.quantity + 1)]
  {
    if OnMenu(s.items, itemId) {
      var f := PairIs(u, itemId);
      FirstIndexFound(s.cart, f);
      var i := FirstIndex(s.cart, f).value;
      assert s.cart[i] in Select(s.cart, f);
      SelectUpdateSingle(s.cart, i, s.cart[i].(quantity := s.cart[i].quantity + 1), f);
    }
  }

  /** Incrementing an existing line changes no row's key or creation stamp, so the
      user's listing keeps its rows in the same places. */
  lemma AddToCartKeepsListing(s: Store, u: UserId, itemId: ItemId)
    requires Select(s.cart, PairIs(u, itemId)) != []
    ensures AddToCart(s, u, itemId).Ok? ==>
      SameRows(Listing(AddToCart(s, u, itemId).value.cart, u), Listing(s.cart, u))
  {
    if OnMenu(s.items, itemId) {
      FirstIndexFound(s.cart, PairIs(u, itemId));
      var c := AddToCart(s, u, itemId).value.cart;
      assert SameRows(c, s.cart);
      ListingSameRows(c, s.cart, u);
    }
  }

  /** Appending a row for a pair the cart does not hold yet keeps the cart valid. */
  lemma AppendRowKeepsCartValid(s: Store, u: UserId, itemId: ItemId)
    requires CartValid(s) && itemId in s.items
    requires forall k :: 0 <= k < |s.cart| ==> !Matches(PairIs(u, itemId), s.cart[k])
    ensures CartValid(s.(cart := s.cart + [NewRow(s, u, itemId)], nextCartItemId := s.nextCartItemId + 1, clock := s.clock + 1))
  {
    var c := s.cart + [NewRow(s, u, itemId)];
    forall i, j | 0 <= i < j < |c|
      ensures Ordered(c[i], c[j])
    {
      if j == |s.cart| {
        assert !Matches(PairIs(u, itemId), s.cart[i]);
      } else {
        assert c[i] == s.cart[i] && c[j] == s.cart[j];
      }
    }
  }

  /** Raising the quantity of one row keeps the cart valid. */
  lemma IncrementKeepsCartValid(s: Store, i: nat)
    requires CartValid(s) && i < |s.cart|
    ensures CartValid(s.(cart := s.cart[i := s.cart[i].(quantity := s.cart[i].quantity + 1)]))
  {
    var c := s.cart[i := s.cart[i].(quantity := s.cart[i].quantity + 1)];
    forall p, q | 0 <= p < q < |c|
      ensures Ordered(c[p], c[q])
    {
      assert Ordered(s.cart[p], s.cart[q]);
    }
  }

  /** `add_to_cart` keeps the store valid and leaves exactly one row for the pair. */
  lemma AddToCartPreservesValid(s: Store, u: UserId, itemId: ItemId)
    requires Valid(s)
    ensures AddToCart(s, u, itemId).Ok? ==>
      var s' := AddToCart(s, u, itemId).value;
      Valid(s') && |Select(s'.cart, PairIs(u, itemId))| == 1
  {
    if OnMenu(s.items, itemId) {
      var s' := AddToCart(s, u, itemId).value;
      var f := PairIs(u, itemId);
      match FirstIndex(s.cart, f)
      case None =>
        AppendRowKeepsCartValid(s, u, itemId);
        SelectNone(s.cart, f);
        SelectAppend(s.cart, NewRow(s, u, itemId), f);
      case Some(i) =>
        IncrementKeepsCartValid(s, i);
        AtMostOneRowPerPair(s'.cart, u, itemId);
        assert s'.cart[i] in Select(s'.cart, f);
    }
  }

  /** `add_to_cart` never touches another user's cart or another item's line. */
  lemma AddToCartLeavesOthers(s: Store, u: UserId, itemId: ItemId)
    ensures AddToCart(s, u, itemId).Ok? ==>
      var s' := AddToCart(s, u, itemId).value;
      && (forall v :: v != u ==> Select(s'.cart, UserIs(v)) == Select(s.cart, UserIs(v)))
      && (forall v, j :: v != u || j != itemId ==> Quantity(s'.cart, v, j) == Quantity(s.cart, v, j))
  {
    if OnMenu(s.items, itemId) {
      var s' := AddToCart(s, u, itemId).value;
      match FirstIndex(s.cart, PairIs(u, itemId))
      case None =>
        var row := NewRow(s, u, itemId);
        assert s'.cart == s.cart + [row];
        forall v | v != u
          ensures Select(s'.cart, UserIs(v)) == Select(s.cart, UserIs(v))
        {
          SelectAppend(s.cart, row, UserIs(v));
        }
        forall v, j | v != u || j != itemId
          ensures Quantity(s'.cart, v, j) == Quantity(s.cart, v, j)
        {
          QuantityAppend(s.cart, row, v, j);
        }
      case Some(i) =>
        var row := s.cart[i].(quantity := s.cart[i].quantity + 1);
        assert s'.cart == s.cart[i := row];
        forall v | v != u
          ensures Select(s'.cart, UserIs(v)) == Select(s.cart, UserIs(v))
        {
          SelectUpdateUnseen(s.cart, i, row, UserIs(v));
        }
        forall v, j | v != u || j != itemId
          ensures Quantity(s'.cart, v, j) == Quantity(s.cart, v, j)
        {
          QuantityUpdate(s.cart, i, row, v, j);
        }
    }
  }

  // ---------------------------------------------------------------------------
  // remove_from_cart

  /** With distinct keys, the key of the user's row names that row and no other. */
  lemma KeyNamesOneRow(s: Store, i: nat)
    requires CartValid(s) && i < |s.cart|
    ensures forall k :: 0 <= k < |s.cart| && s.cart[k].id == s.cart[i].id ==> k == i
  {
    forall k | 0 <= k < |s.cart| && k != i
      ensures s.cart[k].id != s.cart[i].id
    {
      if k < i {
        assert Ordered(s.cart[k], s.cart[i]);
      } else {
        assert Ordered(s.cart[i], s.cart[k]);
      }
    }
  }

  /** Deleting by the key of an existing row removes exactly that one row. */
  lemma KeyDeleteDropsOne(s: Store, i: nat)
    requires CartValid(s) && i < |s.cart|
    ensures |Select(s.cart, IdIsNot(s.cart[i].id))| == |s.cart| - 1
  {
    forall p, q | 0 <= p < q < |s.cart|
      ensures s.cart[p].id != s.cart[q].id
    {
      assert Ordered(s.cart[p], s.cart[q]);
    }
    SelectDropsOne(s.cart, i);
  }

  /** Removing keeps the store valid and deletes exactly one line. */
  lemma RemoveFromCartPreservesValid(s: Store, u: UserId, id: CartItemId)
    requires Valid(s)
    ensures RemoveFromCart(s, u, id).Ok? ==>
      var s' := RemoveFromCart(s, u, id).value;
      Valid(s') && |s'.cart| == |s.cart| - 1
  {
    var f := Owned(id, u);
    if FirstIndex(s.cart, f).Some? {
      var i := FirstIndex(s.cart, f).value;
      var s' := RemoveFromCart(s, u, id).value;
      assert s' == s.(cart := Select(s.cart, IdIsNot(id)));
      SelectCartValid(s, IdIsNot(id));
      assert OrdersValid(s');
      KeyDeleteDropsOne(s, i);
    }
  }

  /** Removing one's own line leaves every other user's cart as it was. */
  lemma RemoveFromCartLeavesOthers(s: Store, u: UserId, id: CartItemId)
    requires CartValid(s)
    ensures RemoveFromCart(s, u, id).Ok? ==>
      var s' := RemoveFromCart(s, u, id).value;
      forall v :: v != u ==> Select(s'.cart, UserIs(v)) == Select(s.cart, UserIs(v))
  {
    var f := Owned(id, u);
    if FirstIndex(s.cart, f).Some? {
      var i := FirstIndex(s.cart, f).value;
      var s' := RemoveFromCart(s, u, id).value;
      assert s'.cart == Select(s.cart, IdIsNot(id));
      KeyNamesOneRow(s, i);
      forall v | v != u
        ensures Select(s'.cart, UserIs(v)) == Select(s.cart, UserIs(v))
      {
        SelectDropUnseen(s.cart, IdIsNot(id), UserIs(v));
      }
    }
  }

  // ---------------------------------------------------------------------------
  // update_cart_quantity

  /** Updating keeps every quantity at least 1 and the store valid, and leaves every
      other user's cart as it was. */
  lemma UpdateCartQuantityPreservesValid(s: Store, u: UserId, isPost: bool, id: CartItemId, posted: Option<int>)
    requires Valid(s)
    ensures UpdateCartQuantity(s, u, isPost, id, posted).Ok? ==>
      var s' := UpdateCartQuantity(s, u, isPost, id, posted).value;
      && Valid(s')
      && (forall v :: v != u ==> Select(s'.cart, UserIs(v)) == Select(s.cart, UserIs(v)))
  {
    var quantity := RequestedQuantity(posted);
    if isPost && quantity >= 1 && FirstIndex(s.cart, Owned(id, u)).Some? {
      var i := FirstIndex(s.cart, Owned(id, u)).value;
      var s' := UpdateCartQuantity(s, u, isPost, id, posted).value;
      var row := s.cart[i].(quantity := quantity);
      assert s'.cart == s.cart[i := row];
      forall p, q | 0 <= p < q < |s'.cart|
        ensures Ordered(s'.cart[p], s'.cart[q])
      {
        assert Ordered(s.cart[p], s.cart[q]);
      }
      forall v | v != u
        ensures Select(s'.cart, UserIs(v)) == Select(s.cart, UserIs(v))
      {
        SelectUpdateUnseen(s.cart, i, row, UserIs(v));
      }
    }
  }
}
