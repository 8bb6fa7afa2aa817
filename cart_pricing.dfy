/** The computed fields of a cart and its items: the unit price for an
    item's size, its subtotal, and the cart total
    (src/cart/cart.resolver.ts). They read the item's product prices and
    change nothing. */
module CartPricing {
  import opened Results
  import opened Catalog

  /** A cart item with the price list of its product loaded. */
  datatype CartLine = CartLine(productId: Id, size: Size, quantity: int, prices: seq<Price>)

  /** The `price` field: the value of the first price entry for the item's
      size; a plain error (no HTTP status) when the product has none. */
  function ItemPrice(line: CartLine): (r: Result<int>)
    ensures r.Failure? <==> forall i :: 0 <= i < |line.prices| ==> line.prices[i].size != line.size
    ensures r.Failure? ==> r.error == Internal
    ensures r.Success? ==>
      exists i :: 0 <= i < |line.prices| && line.prices[i] == Price(line.size, r.value)
                  && forall j :: 0 <= j < i ==> line.prices[j].size != line.size
  {
    match FindPrice(line.prices, line.size)
    case None => Failure(Internal)
    case Some(value) => Success(value)
  }

  /** The `subtotal` field: that price times the quantity, failing exactly
      when `price` fails. */
  function Subtotal(line: CartLine): (r: Result<int>)
    ensures r.Success? <==> ItemPrice(line).Success?
    ensures r.Success? ==> r.value == ItemPrice(line).value * line.quantity
    ensures r.Failure? ==> r == ItemPrice(line)
  {
    match FindPrice(line.prices, line.size)
    case None => Failure(Internal)
    case Some(value) => Success(value * line.quantity)
  }

  /** The `reduce` of `total`: adds price × quantity for each item from the
      left, skipping an item whose product has no price for its size. */
  function Accumulate(sum: int, lines: seq<CartLine>): (r: int)
    decreases |lines|
    ensures (forall k :: 0 <= k < |lines| ==> FindPrice(lines[k].prices, lines[k].size).None?) ==> r == sum
  {
    if lines == [] then sum
    else
      match FindPrice(lines[0].prices, lines[0].size)
      case None => Accumulate(sum, lines[1..])
      case Some(value) => Accumulate(sum + value * lines[0].quantity, lines[1..])
  }

  /** The `total` field. A cart without items totals 0. */
  function CartTotal(lines: seq<CartLine>): (r: int)
    ensures lines == [] ==> r == 0
  {
    if |lines| == 0 then 0 else Accumulate(0, lines)
  }

  /** The items whose product has a price for their size, in cart order. */
  function PricedOnly(lines: seq<CartLine>): (r: seq<CartLine>)
    ensures forall k :: 0 <= k < |r| ==> Subtotal(r[k]).Success?
    ensures |r| <= |lines|
  {
    if lines == [] then []
    else if Subtotal(lines[0]).Success? then [lines[0]] + PricedOnly(lines[1..])
    else PricedOnly(lines[1..])
  }

  /** The sum of the `subtotal` fields of items that all have a price. */
  function SubtotalSum(lines: seq<CartLine>): int
    requires forall k :: 0 <= k < |lines| ==> Subtotal(lines[k]).Success?
  {
    if lines == [] then 0 else Subtotal(lines[0]).value + SubtotalSum(lines[1..])
  }

  lemma {:induction false} AccumulateIsSubtotalSum(sum: int, lines: seq<CartLine>)
    decreases |lines|
    ensures Accumulate(sum, lines) == sum + SubtotalSum(PricedOnly(lines))
  {
    if lines != [] {
      var sub := Subtotal(lines[0]);
      if sub.Success? {
        assert Accumulate(sum, lines) == Accumulate(sum + sub.value, lines[1..]);
        assert PricedOnly(lines) == [lines[0]] + PricedOnly(lines[1..]);
        AccumulateIsSubtotalSum(sum + sub.value, lines[1..]);
      } else {
        assert Accumulate(sum, lines) == Accumulate(sum, lines[1..]);
        assert PricedOnly(lines) == PricedOnly(lines[1..]);
        AccumulateIsSubtotalSum(sum, lines[1..]);
      }
    }
  }

  /** The cart total is the sum of the subtotals of the items that have a
      price for their size; the others contribute nothing. */
  lemma TotalIsSumOfPricedSubtotals(lines: seq<CartLine>)
    ensures CartTotal(lines) == SubtotalSum(PricedOnly(lines))
  {
    AccumulateIsSubtotalSum(0, lines);
  }

  lemma {:induction false} PricedOnlyKeepsPricedCart(lines: seq<CartLine>)
    requires forall k :: 0 <= k < |lines| ==> Subtotal(lines[k]).Success?
    ensures PricedOnly(lines) == lines
  {
    if lines != [] {
      PricedOnlyKeepsPricedCart(lines[1..]);
    }
  }

  /** When every item has a price for its size, the cart total equals the
      sum of the items' subtotals. */
  lemma TotalIsSumOfSubtotals(lines: seq<CartLine>)
    requires forall k :: 0 <= k < |lines| ==> Subtotal(lines[k]).Success?
    ensures CartTotal(lines) == SubtotalSum(lines)
  {
    TotalIsSumOfPricedSubtotals(lines);
    PricedOnlyKeepsPricedCart(lines);
  }
}
