/**
 * The pure part of assets/js/cart.js: what each cart operation does to the
 * sequence of lines, and the totals `getCartSummary` folds out of it.
 */
module Cart {

  import opened Wrappers
  import Lists

  /**
   * A cart line: the product record `extractProductInfo` builds (price as an integer
   * amount) together with its quantity.
   */
  datatype CartLine = CartLine(id: string, name: string, price: int, image: string, badge: Option<string>, quantity: int)

  function LineId(l: CartLine): string { l.id }

  /** Lines are merged on name and price, not on id. */
  predicate SameProduct(a: CartLine, b: CartLine)
  {
    a.name == b.name && a.price == b.price
  }

  /** No two lines share name and price. */
  predicate DistinctProducts(lines: seq<CartLine>)
  {
    forall i, j :: 0 <= i < j < |lines| ==> !SameProduct(lines[i], lines[j])
  }

  /** Every line has a positive quantity. */
  predicate PositiveQuantities(lines: seq<CartLine>)
  {
    forall i :: 0 <= i < |lines| ==> lines[i].quantity > 0
  }

  /** The `cart.find(item => item.name === p.name && item.price === p.price)` of `addToCart`. */
  function FindSameProduct(lines: seq<CartLine>, p: CartLine): (r: Option<nat>)
    ensures r.Some? ==> r.value < |lines| && SameProduct(lines[r.value], p)
                        && forall j :: 0 <= j < r.value ==> !SameProduct(lines[j], p)
    ensures r.None? ==> forall j :: 0 <= j < |lines| ==> !SameProduct(lines[j], p)
  {
    if |lines| == 0 then None
    else if SameProduct(lines[0], p) then Some(0)
    else match FindSameProduct(lines[1..], p)
      case None => None
      case Some(i) => Some(i + 1)
  }

  /** The `cart.find(item => item.id === id)` of `updateQuantity`. */
  function FindId(lines: seq<CartLine>, id: string): (r: Option<nat>)
    ensures r.Some? ==> r.value < |lines| && lines[r.value].id == id
                        && forall j :: 0 <= j < r.value ==> lines[j].id != id
    ensures r.None? ==> !Lists.HasId(lines, LineId, id)
  {
    if |lines| == 0 then None
    else if lines[0].id == id then Some(0)
    else match FindId(lines[1..], id)
      case None =>
        assert forall j :: 0 < j < |lines| ==> LineId(lines[j]) == lines[1..][j - 1].id;
        None
      case Some(i) => Some(i + 1)
  }

  /** `addToCart`: raise the first line with the same name and price by one, or append a copy of `p`. */
  function Added(lines: seq<CartLine>, p: CartLine): (r: seq<CartLine>)
    ensures |lines| <= |r| <= |lines| + 1
    ensures exists i :: 0 <= i < |r| && SameProduct(r[i], p)
  {
    match FindSameProduct(lines, p)
    case Some(i) =>
      var r := lines[i := lines[i].(quantity := lines[i].quantity + 1)];
      assert SameProduct(r[i], p);
      r
    case None =>
      assert (lines + [p])[|lines|] == p;
      lines + [p]
  }

  /** `removeFromCart`: drop every line with this id. */
  function Removed(lines: seq<CartLine>, id: string): (r: seq<CartLine>)
    ensures |r| <= |lines|
    ensures forall i :: 0 <= i < |r| ==> r[i].id != id
  {
    Lists.WithoutLength(lines, LineId, id);
    Lists.WithoutRemovesId(lines, LineId, id);
    Lists.Without(lines, LineId, id)
  }

  /** `updateQuantity`: on the first line with this id, remove when `q <= 0`, else set its quantity. */
  function QuantityUpdated(lines: seq<CartLine>, id: string, q: int): (r: seq<CartLine>)
    ensures |r| <= |lines|
    ensures q > 0 ==> |r| == |lines|
    ensures q <= 0 ==> forall i :: 0 <= i < |r| ==> r[i].id != id
  {
    match FindId(lines, id)
    case None => lines
    case Some(i) => if q <= 0 then Removed(lines, id) else lines[i := lines[i].(quantity := q)]
  }

  /** `cart.reduce((sum, item) => sum + item.quantity, 0)`, folded from the left. */
  function TotalItems(lines: seq<CartLine>): int
  {
    if |lines| == 0 then 0 else TotalItems(lines[..|lines| - 1]) + lines[|lines| - 1].quantity
  }

  /** `cart.reduce((sum, item) => sum + item.price * item.quantity, 0)`, folded from the left. */
  function TotalPrice(lines: seq<CartLine>): int
  {
    if |lines| == 0 then 0 else TotalPrice(lines[..|lines| - 1]) + lines[|lines| - 1].price * lines[|lines| - 1].quantity
  }

  /** The object `getCartSummary` returns. */
  datatype CartSummary = CartSummary(items: seq<CartLine>, totalItems: int, totalPrice: int)

  function Summary(lines: seq<CartLine>): CartSummary
  {
    CartSummary(lines, TotalItems(lines), TotalPrice(lines))
  }

  // ---------------------------------------------------------------------------
  // addToCart

  /** A product matching a line of a cart without duplicates raises exactly that line by one. */
  lemma AddMergesMatchingLine(lines: seq<CartLine>, p: CartLine, i: nat)
    requires DistinctProducts(lines)
    requires i < |lines| && SameProduct(lines[i], p)
    ensures |Added(lines, p)| == |lines|
    ensures Added(lines, p)[i] == lines[i].(quantity := lines[i].quantity + 1)
    ensures forall j :: 0 <= j < |lines| && j != i ==> Added(lines, p)[j] == lines[j]
  {
    var k := FindSameProduct(lines, p).value;
    if k < i {
      assert SameProduct(lines[k], lines[i]);
    }
  }

  /** A product matching no line is appended, unchanged, at the end. */
  lemma AddAppendsNewProduct(lines: seq<CartLine>, p: CartLine)
    requires forall j :: 0 <= j < |lines| ==> !SameProduct(lines[j], p)
    ensures Added(lines, p) == lines + [p]
  {
  }

  /** `addToCart` never creates a second line for the same name and price. */
  lemma AddKeepsProductsDistinct(lines: seq<CartLine>, p: CartLine)
    requires DistinctProducts(lines)
    ensures DistinctProducts(Added(lines, p))
  {
    var r := Added(lines, p);
    match FindSameProduct(lines, p)
    case Some(k) =>
      forall i, j | 0 <= i < j < |r|
        ensures !SameProduct(r[i], r[j])
      {
        assert SameProduct(r[i], lines[i]) && SameProduct(r[j], lines[j]);
      }
    case None =>
      forall i, j | 0 <= i < j < |r|
        ensures !SameProduct(r[i], r[j])
      {
        if j == |lines| { assert r[j] == p; }
      }
  }

  /** `addToCart` keeps every quantity positive. */
  lemma AddKeepsQuantitiesPositive(lines: seq<CartLine>, p: CartLine)
    requires PositiveQuantities(lines) && p.quantity > 0
    ensures PositiveQuantities(Added(lines, p))
  {
  }

  /** Adding the same name and price twice to a cart without it gives one line of quantity 2. */
  lemma AddTwiceMerges(lines: seq<CartLine>, p: CartLine, p': CartLine)
    requires forall j :: 0 <= j < |lines| ==> !SameProduct(lines[j], p)
    requires p.quantity == 1 && SameProduct(p, p')
    ensures Added(Added(lines, p), p') == lines + [p.(quantity := 2)]
  {
    var once := lines + [p];
    assert Added(lines, p) == once;
    assert forall j :: 0 <= j < |lines| ==> !SameProduct(once[j], p');
    assert once[|lines|] == p && SameProduct(once[|lines|], p');
    assert FindSameProduct(once, p') == Some(|lines|);
  }

  /** Two products differing in name, neither in the cart, give two lines of quantity 1. */
  lemma AddTwoNamesAppendsBoth(lines: seq<CartLine>, p: CartLine, p': CartLine)
    requires forall j :: 0 <= j < |lines| ==> !SameProduct(lines[j], p) && !SameProduct(lines[j], p')
    requires p.name != p'.name
    ensures Added(Added(lines, p), p') == lines + [p, p']
  {
    var once := lines + [p];
    assert Added(lines, p) == once;
    assert forall j :: 0 <= j < |once| ==> !SameProduct(once[j], p');
  }

  // ---------------------------------------------------------------------------
  // Totals

  /** Both totals are sums over the lines: they add up over a concatenation. */
  lemma {:induction false} TotalsConcat(a: seq<CartLine>, b: seq<CartLine>)
    ensures TotalItems(a + b) == TotalItems(a) + TotalItems(b)
    ensures TotalPrice(a + b) == TotalPrice(a) + TotalPrice(b)
  {
    if |b| == 0 {
      assert a + b == a;
    } else {
      var c := a + b;
      assert c[..|c| - 1] == a + b[..|b| - 1];
      TotalsConcat(a, b[..|b| - 1]);
    }
  }

  /** Replacing one line changes the totals by the difference of the two lines alone. */
  lemma {:induction false} TotalsUpdate(lines: seq<CartLine>, i: nat, l: CartLine)
    requires i < |lines|
    ensures TotalItems(lines[i := l]) == TotalItems(lines) - lines[i].quantity + l.quantity
    ensures TotalPrice(lines[i := l]) == TotalPrice(lines) - lines[i].price * lines[i].quantity + l.price * l.quantity
  {
    var pre, post := lines[..i], lines[i + 1..];
    assert lines == pre + [lines[i]] + post;
    assert lines[i := l] == pre + [l] + post;
    TotalsConcat(pre + [lines[i]], post);
    TotalsConcat(pre + [l], post);
    TotalsConcat(pre, [lines[i]]);
    TotalsConcat(pre, [l]);
  }

  /** With the quantity 1 that extraction gives, `addToCart` adds one item and one unit price. */
  lemma AddRaisesTotals(lines: seq<CartLine>, p: CartLine)
    requires p.quantity == 1
    ensures TotalItems(Added(lines, p)) == TotalItems(lines) + 1
    ensures TotalPrice(Added(lines, p)) == TotalPrice(lines) + p.price
  {
    match FindSameProduct(lines, p)
    case Some(i) =>
      TotalsUpdate(lines, i, lines[i].(quantity := lines[i].quantity + 1));
    case None =>
      TotalsConcat(lines, [p]);
  }

  /** With positive quantities there are at least as many items as lines, and none when empty. */
  lemma {:induction false} TotalItemsBound(lines: seq<CartLine>)
    requires PositiveQuantities(lines)
    ensures TotalItems(lines) >= |lines|
  {
    if |lines| > 0 {
      TotalItemsBound(lines[..|lines| - 1]);
    }
  }

  /** The empty cart sums to zero items and zero price. */
  lemma EmptySummary()
    ensures Summary([]) == CartSummary([], 0, 0)
  {
  }

  // ---------------------------------------------------------------------------
  // removeFromCart

  /**
   * `removeFromCart` keeps exactly the lines with another id, in their original order
   * (it distributes over concatenation), and leaves no line with the id.
   */
  lemma RemoveKeepsOthersInOrder(lines: seq<CartLine>, id: string, a: seq<CartLine>, b: seq<CartLine>, l: CartLine)
    requires lines == a + b
    ensures Removed(lines, id) == Removed(a, id) + Removed(b, id)
    ensures l in Removed(lines, id) <==> l in lines && l.id != id
    ensures forall j :: 0 <= j < |Removed(lines, id)| ==> Removed(lines, id)[j].id != id
  {
    Lists.WithoutConcat(a, b, LineId, id);
    Lists.WithoutMembership(lines, LineId, id, l);
    Lists.WithoutRemovesId(lines, LineId, id);
  }

  /** Removing twice is removing once. */
  lemma RemoveIdempotent(lines: seq<CartLine>, id: string)
    ensures Removed(Removed(lines, id), id) == Removed(lines, id)
  {
    Lists.WithoutIdempotent(lines, LineId, id);
  }

  /** Removing an id no line carries changes nothing. */
  lemma RemoveAbsentId(lines: seq<CartLine>, id: string)
    requires forall j :: 0 <= j < |lines| ==> lines[j].id != id
    ensures Removed(lines, id) == lines
  {
    assert !Lists.HasId(lines, LineId, id);
    Lists.WithoutAbsent(lines, LineId, id);
  }

  /**
   * Removing lines keeps only lines of the original cart, so the lines stay distinct
   * and their quantities positive.
   */
  lemma {:induction false} RemoveKeepsInvariants(lines: seq<CartLine>, id: string)
    ensures DistinctProducts(lines) ==> DistinctProducts(Removed(lines, id))
    ensures PositiveQuantities(lines) ==> PositiveQuantities(Removed(lines, id))
    ensures forall l :: l in Removed(lines, id) ==> l in lines
  {
    if |lines| > 0 {
      var rest := Removed(lines[1..], id);
      RemoveKeepsInvariants(lines[1..], id);
      assert Removed(lines, id) == (if lines[0].id == id then [] else [lines[0]]) + rest;
      forall l | l in rest ensures l in lines[1..] { }
      if DistinctProducts(lines) {
        assert DistinctProducts(lines[1..]) by {
          forall i, j | 0 <= i < j < |lines[1..]| ensures !SameProduct(lines[1..][i], lines[1..][j]) {
            assert lines[1..][i] == lines[i + 1] && lines[1..][j] == lines[j + 1];
          }
        }
        forall l | l in rest ensures !SameProduct(lines[0], l) {
          var k :| 1 <= k < |lines| && lines[k] == l;
        }
      }
    }
  }

  /** Removing lines takes their quantities and prices off the totals. */
  lemma {:induction false} RemoveLowersTotals(lines: seq<CartLine>, id: string)
    requires PositiveQuantities(lines)
    ensures TotalItems(Removed(lines, id)) <= TotalItems(lines)
    ensures Lists.HasId(lines, LineId, id) ==> TotalItems(Removed(lines, id)) < TotalItems(lines)
  {
    if |lines| > 0 {
      var head := if lines[0].id == id then [] else [lines[0]];
      var rest := lines[1..];
      assert PositiveQuantities(rest);
      RemoveLowersTotals(rest, id);
      TotalsConcat(head, Removed(rest, id));
      TotalsConcat([lines[0]], rest);
      assert lines == [lines[0]] + rest;
      if Lists.HasId(lines, LineId, id) && lines[0].id != id {
        var k :| 0 <= k < |lines| && LineId(lines[k]) == id;
        assert LineId(rest[k - 1]) == id;
      }
    }
  }

  // ---------------------------------------------------------------------------
  // updateQuantity

  /** A quantity of zero or less is `removeFromCart`, whether or not the id is in the cart. */
  lemma UpdateNonPositiveRemoves(lines: seq<CartLine>, id: string, q: int)
    requires q <= 0
    ensures QuantityUpdated(lines, id, q) == Removed(lines, id)
  {
    if FindId(lines, id).None? {
      Lists.WithoutAbsent(lines, LineId, id);
    }
  }

  /** An id no line carries leaves the cart as it was, whatever the quantity. */
  lemma UpdateUnknownIdUnchanged(lines: seq<CartLine>, id: string, q: int)
    requires forall j :: 0 <= j < |lines| ==> lines[j].id != id
    ensures QuantityUpdated(lines, id, q) == lines
  {
  }

  /**
   * A positive quantity changes only the quantity of the first line with the id: the
   * line count, the other lines and that line's other fields stay.
   */
  lemma UpdatePositiveSetsQuantity(lines: seq<CartLine>, id: string, q: int, i: nat)
    requires q > 0 && i < |lines| && lines[i].id == id
    requires forall j :: 0 <= j < i ==> lines[j].id != id
    ensures |QuantityUpdated(lines, id, q)| == |lines|
    ensures QuantityUpdated(lines, id, q)[i] == lines[i].(quantity := q)
    ensures forall j :: 0 <= j < |lines| && j != i ==> QuantityUpdated(lines, id, q)[j] == lines[j]
    ensures TotalItems(QuantityUpdated(lines, id, q)) == TotalItems(lines) - lines[i].quantity + q
  {
    var k := FindId(lines, id).value;
    assert k == i;
    TotalsUpdate(lines, i, lines[i].(quantity := q));
  }

  /** `updateQuantity` keeps the lines distinct and their quantities positive. */
  lemma UpdateKeepsInvariants(lines: seq<CartLine>, id: string, q: int)
    ensures DistinctProducts(lines) ==> DistinctProducts(QuantityUpdated(lines, id, q))
    ensures PositiveQuantities(lines) ==> PositiveQuantities(QuantityUpdated(lines, id, q))
  {
    RemoveKeepsInvariants(lines, id);
    var r := QuantityUpdated(lines, id, q);
    if FindId(lines, id).Some? && q > 0 && DistinctProducts(lines) {
      forall i, j | 0 <= i < j < |r| ensures !SameProduct(r[i], r[j]) {
        assert SameProduct(r[i], lines[i]) && SameProduct(r[j], lines[j]);
      }
    }
  }
}
