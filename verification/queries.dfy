/** The ORM queries the views run against the cart table: keyword filters,
    `get_object_or_404` lookups, the `-added_at` listing order, and the facts about
    them that the views' contracts rest on. A DELETE of the rows a filter names is
    the selection of the rows the opposite filter names. */
module Queries {
  import opened Results
  import opened Models

  /** The keyword filters the views put on `CartItem.objects`. */
  datatype Filter =
    | UserIs(user: UserId)                   // filter(user=u)
    | UserIsNot(user: UserId)                // rows surviving delete of filter(user=u)
    | PairIs(user: UserId, item: ItemId)     // filter(user=u, item=i)
    | Owned(id: CartItemId, user: UserId)    // filter(id=k, user=u)
    | IdIsNot(id: CartItemId)                // rows surviving delete of the row with pk k

  predicate Matches(f: Filter, row: CartItem)
  {
    match f
    case UserIs(u) => row.user == u
    case UserIsNot(u) => row.user != u
    case PairIs(u, i) => row.user == u && row.item == i
    case Owned(k, u) => row.id == k && row.user == u
    case IdIsNot(k) => row.id != k
  }

  /** The rows matching `f`, in table order. */
  function Select(rows: seq<CartItem>, f: Filter): (r: seq<CartItem>)
    ensures |r| <= |rows|
    ensures forall x :: x in r <==> x in rows && Matches(f, x)
  {
    if rows == [] then []
    else (if Matches(f, rows[0]) then [rows[0]] else []) + Select(rows[1..], f)
  }

  /** Position of the first row matching `f`. When at most one row matches, as the
      primary key and `unique_together` ensure in a valid store, this is the row
      `get`, `get_or_create` and `get_object_or_404` find. */
  function FirstIndex(rows: seq<CartItem>, f: Filter): (r: Option<nat>)
    ensures r.Some? ==> r.value < |rows| && Matches(f, rows[r.value])
    ensures r.Some? ==> forall k :: 0 <= k < r.value ==> !Matches(f, rows[k])
    ensures r.None? <==> forall k :: 0 <= k < |rows| ==> !Matches(f, rows[k])
  {
    if rows == [] then None
    else if Matches(f, rows[0]) then Some(0)
    else match FirstIndex(rows[1..], f)
      case None => None
      case Some(k) => Some(k + 1)
  }

  function Reverse<T(!new)>(xs: seq<T>): (r: seq<T>)
    ensures |r| == |xs|
    ensures forall i :: 0 <= i < |xs| ==> r[i] == xs[|xs| - 1 - i]
    ensures forall x :: x in r <==> x in xs
  {
    if xs == [] then []
    else
      assert xs == [xs[0]] + xs[1..];
      Reverse(xs[1..]) + [xs[0]]
  }

  /** `CartItem.objects.filter(user=u)` under the model's `ordering = ['-added_at']`:
      the user's rows, most recently added first. */
  function Listing(cart: seq<CartItem>, u: UserId): (r: seq<CartItem>)
    ensures forall x :: x in r <==> x in cart && x.user == u
  {
    Reverse(Select(cart, UserIs(u)))
  }

  // ---------------------------------------------------------------------------
  // Selection lemmas

  lemma {:induction false} SelectNone(rows: seq<CartItem>, f: Filter)
    requires forall k :: 0 <= k < |rows| ==> !Matches(f, rows[k])
    ensures Select(rows, f) == []
  {
    if rows != [] {
      SelectNone(rows[1..], f);
    }
  }

  lemma {:induction false} SelectAll(rows: seq<CartItem>, f: Filter)
    requires forall k :: 0 <= k < |rows| ==> Matches(f, rows[k])
    ensures Select(rows, f) == rows
  {
    if rows != [] {
      SelectAll(rows[1..], f);
    }
  }

  lemma {:induction false} SelectAppend(rows: seq<CartItem>, x: CartItem, f: Filter)
    ensures Select(rows + [x], f) == Select(rows, f) + (if Matches(f, x) then [x] else [])
  {
    var head := if Matches(f, x) then [x] else [];
    if rows == [] {
      assert rows + [x] == [x];
      assert Select([x], f) == head + Select([], f);
    } else {
      var rest := rows + [x];
      assert rest[0] == rows[0];
      assert rest[1..] == rows[1..] + [x];
      SelectAppend(rows[1..], x, f);
      var h0 := if Matches(f, rows[0]) then [rows[0]] else [];
      assert Select(rest, f) == h0 + Select(rows[1..] + [x], f);
      assert Select(rows, f) == h0 + Select(rows[1..], f);
    }
  }

  /** Overwriting a row that `f` neither selects before nor after leaves the selection alone. */
  lemma {:induction false} SelectUpdateUnseen(rows: seq<CartItem>, i: nat, x: CartItem, f: Filter)
    requires i < |rows| && !Matches(f, rows[i]) && !Matches(f, x)
    ensures Select(rows[i := x], f) == Select(rows, f)
  {
    if i > 0 {
      assert rows[i := x][1..] == rows[1..][i - 1 := x];
      SelectUpdateUnseen(rows[1..], i - 1, x, f);
    } else {
      assert rows[i := x][1..] == rows[1..];
    }
  }

  /** Dropping with `f` rows that `g` would not select anyway does not change what `g` selects. */
  lemma {:induction false} SelectDropUnseen(rows: seq<CartItem>, f: Filter, g: Filter)
    requires forall k :: 0 <= k < |rows| && !Matches(f, rows[k]) ==> !Matches(g, rows[k])
    ensures Select(Select(rows, f), g) == Select(rows, g)
  {
    if rows != [] {
      SelectDropUnseen(rows[1..], f, g);
      var head := if Matches(f, rows[0]) then [rows[0]] else [];
      SelectConcat(head, Select(rows[1..], f), g);
      if Matches(f, rows[0]) {
        assert Select([rows[0]], g) == (if Matches(g, rows[0]) then [rows[0]] else []) + Select([rows[0]][1..], g);
      }
    }
  }

  lemma {:induction false} SelectConcat(a: seq<CartItem>, b: seq<CartItem>, f: Filter)
    ensures Select(a + b, f) == Select(a, f) + Select(b, f)
  {
    if a == [] {
      assert a + b == b;
    } else {
      assert (a + b)[1..] == a[1..] + b;
      SelectConcat(a[1..], b, f);
    }
  }

  /** Deleting by primary key removes exactly one row when keys are distinct. */
  lemma {:induction false} SelectDropsOne(rows: seq<CartItem>, i: nat)
    requires i < |rows|
    requires forall p, q :: 0 <= p < q < |rows| ==> rows[p].id != rows[q].id
    ensures |Select(rows, IdIsNot(rows[i].id))| == |rows| - 1
  {
    var k := rows[i].id;
    if i == 0 {
      SelectAll(rows[1..], IdIsNot(k));
    } else {
      SelectDropsOne(rows[1..], i - 1);
    }
  }

  /** Two versions of one row: everything but the quantity agrees. */
  predicate SameRow(x: CartItem, y: CartItem)
  {
    x.id == y.id && x.user == y.user && x.item == y.item && x.addedAt == y.addedAt
  }

  /** Two tables holding the same rows in the same places, up to quantities. */
  predicate SameRows(a: seq<CartItem>, b: seq<CartItem>)
  {
    |a| == |b| && forall k :: 0 <= k < |a| ==> SameRow(a[k], b[k])
  }

  /** No filter looks at quantities, so changing quantities never changes what is selected. */
  lemma {:induction false} SelectSameRows(a: seq<CartItem>, b: seq<CartItem>, f: Filter)
    requires SameRows(a, b)
    ensures SameRows(Select(a, f), Select(b, f))
  {
    if a != [] {
      assert SameRows(a[1..], b[1..]);
      SelectSameRows(a[1..], b[1..], f);
      assert Matches(f, a[0]) == Matches(f, b[0]);
      var ha := if Matches(f, a[0]) then [a[0]] else [];
      var hb := if Matches(f, b[0]) then [b[0]] else [];
      var ta, tb := Select(a[1..], f), Select(b[1..], f);
      assert Select(a, f) == ha + ta && Select(b, f) == hb + tb;
      forall k | 0 <= k < |ha + ta|
        ensures SameRow((ha + ta)[k], (hb + tb)[k])
      {
        if k >= |ha| {
          assert (ha + ta)[k] == ta[k - |ha|] && (hb + tb)[k] == tb[k - |hb|];
        }
      }
    }
  }

  lemma ListingSameRows(a: seq<CartItem>, b: seq<CartItem>, u: UserId)
    requires SameRows(a, b)
    ensures SameRows(Listing(a, u), Listing(b, u))
  {
    SelectSameRows(a, b, UserIs(u));
  }

  /** A filter that selects something has a first match. */
  lemma FirstIndexFound(rows: seq<CartItem>, f: Filter)
    requires Select(rows, f) != []
    ensures FirstIndex(rows, f).Some?
  {
    var x := Select(rows, f)[0];
    assert x in rows;
    var k :| 0 <= k < |rows| && rows[k] == x;
    assert Matches(f, rows[k]);
  }

  /** Rewriting the one selected row's quantity rewrites the selection's one row. */
  lemma SelectUpdateSingle(rows: seq<CartItem>, i: nat, x: CartItem, f: Filter)
    requires i < |rows| && Select(rows, f) == [rows[i]] && SameRow(rows[i], x)
    ensures Select(rows[i := x], f) == [x]
  {
    var c := rows[i := x];
    assert SameRows(c, rows);
    SelectSameRows(c, rows, f);
    assert Matches(f, rows[i]) == Matches(f, x);
    assert c[i] in Select(c, f);
  }

  /** A selection of a well-ordered table is well-ordered. */
  lemma {:induction false} SelectOrdered(rows: seq<CartItem>, f: Filter)
    requires forall i, j :: 0 <= i < j < |rows| ==> Ordered(rows[i], rows[j])
    ensures forall i, j :: 0 <= i < j < |Select(rows, f)| ==> Ordered(Select(rows, f)[i], Select(rows, f)[j])
  {
    if rows != [] {
      SelectOrdered(rows[1..], f);
      var tail := Select(rows[1..], f);
      if Matches(f, rows[0]) {
        var r := [rows[0]] + tail;
        assert r == Select(rows, f);
        forall i, j | 0 <= i < j < |r|
          ensures Ordered(r[i], r[j])
        {
          if i == 0 {
            assert r[j] in rows[1..];
            var k :| 0 <= k < |rows[1..]| && rows[1..][k] == r[j];
            assert Ordered(rows[0], rows[k + 1]);
          } else {
            assert r[i] == tail[i - 1] && r[j] == tail[j - 1];
          }
        }
      }
    }
  }

  /** The listing holds exactly the user's rows, newest first. */
  lemma ListingNewestFirst(s: Store, u: UserId)
    requires CartValid(s)
    ensures var l := Listing(s.cart, u);
      && (forall x :: x in l <==> x in s.cart && x.user == u)
      && (forall i, j :: 0 <= i < j < |l| ==> l[i].addedAt > l[j].addedAt)
  {
    var m := Select(s.cart, UserIs(u));
    SelectOrdered(s.cart, UserIs(u));
    var l := Listing(s.cart, u);
    forall i, j | 0 <= i < j < |l|
      ensures l[i].addedAt > l[j].addedAt
    {
      var p, q := |m| - 1 - j, |m| - 1 - i;
      assert 0 <= p < q < |m|;
      assert Ordered(m[p], m[q]);
      assert l[i] == m[q] && l[j] == m[p];
    }
  }

  /** Deleting rows (keeping a selection) keeps the cart table valid. */
  lemma SelectCartValid(s: Store, f: Filter)
    requires CartValid(s)
    ensures CartValid(s.(cart := Select(s.cart, f)))
  {
    var c := Select(s.cart, f);
    SelectPriced(s.items, s.cart, f);
    SelectOrdered(s.cart, f);
    forall k | 0 <= k < |c|
      ensures 1 <= c[k].quantity && c[k].id < s.nextCartItemId && c[k].addedAt < s.clock
    {
      assert c[k] in s.cart;
    }
  }

  /** At most one cart row per (user, item) pair: the `unique_together` constraint. */
  lemma {:induction false} AtMostOneRowPerPair(cart: seq<CartItem>, u: UserId, item: ItemId)
    requires forall i, j :: 0 <= i < j < |cart| ==> Ordered(cart[i], cart[j])
    ensures |Select(cart, PairIs(u, item))| <= 1
  {
    if cart != [] {
      if Matches(PairIs(u, item), cart[0]) {
        forall k | 0 <= k < |cart[1..]|
          ensures !Matches(PairIs(u, item), cart[1..][k])
        {
          assert Ordered(cart[0], cart[k + 1]);
        }
        SelectNone(cart[1..], PairIs(u, item));
      } else {
        AtMostOneRowPerPair(cart[1..], u, item);
      }
    }
  }

  // ---------------------------------------------------------------------------
  // Sums over selections

  lemma {:induction false} SumLineTotalsConcat(items: map<ItemId, Item>, a: seq<CartItem>, b: seq<CartItem>)
    requires Priced(items, a) && Priced(items, b)
    ensures Priced(items, a + b)
    ensures SumLineTotals(items, a + b) == SumLineTotals(items, a) + SumLineTotals(items, b)
  {
    if a == [] {
      assert a + b == b;
    } else {
      assert (a + b)[1..] == a[1..] + b;
      SumLineTotalsConcat(items, a[1..], b);
    }
  }

  /** One step of summing a sequence from the front. */
  lemma SumLineTotalsStep(items: map<ItemId, Item>, rows: seq<CartItem>, k: nat)
    requires Priced(items, rows) && k < |rows|
    ensures Priced(items, rows[..k]) && Priced(items, rows[..k + 1])
    ensures SumLineTotals(items, rows[..k + 1]) == SumLineTotals(items, rows[..k]) + CartLineTotal(items, rows[k])
  {
    assert rows[..k + 1] == rows[..k] + [rows[k]];
    SumLineTotalsConcat(items, rows[..k], [rows[k]]);
  }

  /** Summing the listing (newest first) gives the same as summing in table order. */
  lemma {:induction false} SumLineTotalsReverse(items: map<ItemId, Item>, rows: seq<CartItem>)
    requires Priced(items, rows)
    ensures Priced(items, Reverse(rows))
    ensures SumLineTotals(items, Reverse(rows)) == SumLineTotals(items, rows)
  {
    if rows != [] {
      SumLineTotalsReverse(items, rows[1..]);
      SumLineTotalsConcat(items, Reverse(rows[1..]), [rows[0]]);
    }
  }

  lemma SelectPriced(items: map<ItemId, Item>, rows: seq<CartItem>, f: Filter)
    requires Priced(items, rows)
    ensures Priced(items, Select(rows, f))
  {
    var r := Select(rows, f);
    forall i | 0 <= i < |r|
      ensures r[i].item in items
    {
      assert r[i] in rows;
    }
  }

  /** Summing the user's selected rows is the user's subtotal over the whole table. */
  lemma {:induction false} SelectUserSum(items: map<ItemId, Item>, cart: seq<CartItem>, u: UserId)
    requires Priced(items, cart)
    ensures Priced(items, Select(cart, UserIs(u)))
    ensures SumLineTotals(items, Select(cart, UserIs(u))) == Subtotal(items, cart, u)
  {
    SelectPriced(items, cart, UserIs(u));
    if cart != [] {
      SelectPriced(items, cart[1..], UserIs(u));
      SelectUserSum(items, cart[1..], u);
      var head := if cart[0].user == u then [cart[0]] else [];
      SumLineTotalsConcat(items, head, Select(cart[1..], UserIs(u)));
    }
  }

  /** The listing sums to the user's subtotal. */
  lemma ListingSum(items: map<ItemId, Item>, cart: seq<CartItem>, u: UserId)
    requires Priced(items, cart)
    ensures Priced(items, Listing(cart, u))
    ensures SumLineTotals(items, Listing(cart, u)) == Subtotal(items, cart, u)
  {
    SelectUserSum(items, cart, u);
    SumLineTotalsReverse(items, Select(cart, UserIs(u)));
  }

  lemma {:induction false} QuantityAppend(cart: seq<CartItem>, x: CartItem, u: UserId, item: ItemId)
    ensures Quantity(cart + [x], u, item)
         == Quantity(cart, u, item) + (if x.user == u && x.item == item then x.quantity else 0)
  {
    if cart == [] {
      assert cart + [x] == [x];
    } else {
      assert (cart + [x])[1..] == cart[1..] + [x];
      QuantityAppend(cart[1..], x, u, item);
    }
  }

  lemma {:induction false} QuantityUpdate(cart: seq<CartItem>, i: nat, x: CartItem, u: UserId, item: ItemId)
    requires i < |cart|
    ensures Quantity(cart[i := x], u, item)
         == Quantity(cart, u, item)
            - (if cart[i].user == u && cart[i].item == item then cart[i].quantity else 0)
            + (if x.user == u && x.item == item then x.quantity else 0)
  {
    if i == 0 {
      assert cart[i := x][1..] == cart[1..];
    } else {
      assert cart[i := x][1..] == cart[1..][i - 1 := x];
      QuantityUpdate(cart[1..], i - 1, x, u, item);
    }
  }
}
