/** The rules of the order ledger as functions over the product table:
    pricing and checking the requested lines, the order total, the stock
    writes of order creation and of cancellation, and the status
    transitions (src/order/order.service.ts). */
module Orders {
  import opened Results
  import opened Catalog

  /** The status values the ledger distinguishes. */
  datatype OrderStatus = Pending | Processing | Shipped | Delivered | Cancelled

  /** One requested line of an order. */
  datatype ItemInput = ItemInput(productId: Id, quantity: int, size: Size)

  /** A line of a stored order: what was requested and the unit price
      charged at creation time. */
  datatype OrderItem = OrderItem(productId: Id, quantity: int, size: Size, price: int)

  datatype Order = Order(userId: Id, userDetailsId: Id, items: seq<OrderItem>,
                         totalAmount: int, status: OrderStatus, emailSent: bool)

  type Products = map<Id, Product>

  predicate StockNonNegative(products: Products) {
    forall id :: id in products ==> products[id].stock >= 0
  }

  predicate DistinctInputs(items: seq<ItemInput>) {
    forall i, j :: 0 <= i < j < |items| ==> items[i].productId != items[j].productId
  }

  predicate DistinctItems(items: seq<OrderItem>) {
    forall i, j :: 0 <= i < j < |items| ==> items[i].productId != items[j].productId
  }

  /** The shape every stored order keeps: one line per product, each for a
      known product and a positive quantity. */
  predicate WellFormedItems(products: Products, items: seq<OrderItem>) {
    && DistinctItems(items)
    && forall k :: 0 <= k < |items| ==> items[k].productId in products && items[k].quantity >= 1
  }

  /** Every line's quantity is available in its product's stock. */
  predicate Covered(products: Products, items: seq<OrderItem>) {
    forall k :: 0 <= k < |items| ==>
      items[k].productId in products && items[k].quantity <= products[items[k].productId].stock
  }

  // ---------------------------------------------------------------------
  // Pricing the requested lines
  // ---------------------------------------------------------------------

  /** A requested line the ledger accepts: a positive quantity of a known
      product that has a price for the size and enough stock. */
  predicate Orderable(products: Products, item: ItemInput) {
    && 1 <= item.quantity
    && item.productId in products
    && FindPrice(products[item.productId].prices, item.size).Some?
    && item.quantity <= products[item.productId].stock
  }

  /** `line` copies product, quantity and size from `item` and snapshots the
      product's current price for that size. */
  predicate Snapshots(products: Products, item: ItemInput, line: OrderItem) {
    && line.productId == item.productId
    && line.quantity == item.quantity
    && line.size == item.size
    && item.productId in products
    && FindPrice(products[item.productId].prices, item.size) == Some(line.price)
  }

  /** The checks made on one line as the code is written: the product must
      exist (NotFound), have a price for the size (Conflict) and have at
      least the quantity in stock (Conflict). Nothing bounds the quantity
      from below. */
  function PriceItemAsWritten(products: Products, item: ItemInput): (r: Result<OrderItem>)
    ensures r.Success? <==>
      && item.productId in products
      && FindPrice(products[item.productId].prices, item.size).Some?
      && item.quantity <= products[item.productId].stock
    ensures r.Success? ==> Snapshots(products, item, r.value)
    ensures r.Failure? ==> (r.error == NotFound <==> item.productId !in products)
    ensures r.Failure? && item.productId in products ==> r.error == Conflict
  {
    if item.productId !in products then Failure(NotFound)
    else
      var product := products[item.productId];
      match FindPrice(product.prices, item.size)
      case None => Failure(Conflict)
      case Some(value) =>
        if product.stock < item.quantity then Failure(Conflict)
        else Success(OrderItem(item.productId, item.quantity, item.size, value))
  }

  /** The checks on one line with the quantity validated first, as the cart
      input already is: a quantity below one is a Validation error. */
  function PriceItem(products: Products, item: ItemInput): (r: Result<OrderItem>)
    ensures r.Success? <==> Orderable(products, item)
    ensures r.Success? ==> Snapshots(products, item, r.value)
    ensures r.Failure? ==> (r.error == Validation <==> item.quantity < 1)
    ensures r.Failure? ==> (r.error == NotFound <==> 1 <= item.quantity && item.productId !in products)
    ensures r.Failure? && 1 <= item.quantity && item.productId in products ==> r.error == Conflict
  {
    if item.quantity < 1 then Failure(Validation) else PriceItemAsWritten(products, item)
  }

  /** For a quantity of at least one the correction changes nothing: both
      checks accept and reject the same lines, with the same results. */
  lemma PriceItemAgreesOnPositiveQuantity(products: Products, item: ItemInput)
    requires 1 <= item.quantity
    ensures PriceItem(products, item) == PriceItemAsWritten(products, item)
  {
  }

  /** Prices every requested line; the first rejected line, in input order,
      decides the error. */
  function PriceItems(products: Products, items: seq<ItemInput>): (r: Result<seq<OrderItem>>)
    decreases |items|
    ensures r.Success? <==> forall k :: 0 <= k < |items| ==> Orderable(products, items[k])
    ensures r.Success? ==> |r.value| == |items|
    ensures r.Success? ==> forall k :: 0 <= k < |items| ==> Snapshots(products, items[k], r.value[k])
    ensures r.Failure? ==>
      exists k :: 0 <= k < |items| && !Orderable(products, items[k])
                  && r.error == PriceItem(products, items[k]).error
                  && forall j :: 0 <= j < k ==> Orderable(products, items[j])
  {
    if items == [] then Success([])
    else
      var n := |items| - 1;
      assert forall k :: 0 <= k < n ==> items[..n][k] == items[k];
      match PriceItems(products, items[..n])
      case Failure(e) => Failure(e)
      case Success(prefix) =>
        match PriceItem(products, items[n])
        case Failure(e) => Failure(e)
        case Success(line) => Success(prefix + [line])
  }

  /** The order total: the sum of price × quantity over the lines, folded
      from the left as `reduce` does (exact, since money is in cents). */
  function Total(items: seq<OrderItem>): (r: int)
    ensures items == [] ==> r == 0
    ensures |items| == 1 ==> r == items[0].price * items[0].quantity
  {
    if items == [] then 0
    else
      var n := |items| - 1;
      Total(items[..n]) + items[n].price * items[n].quantity
  }

  /** The total of two runs of lines is the sum of their totals: where the
      fold splits the lines does not matter. */
  lemma {:induction false} TotalAppend(a: seq<OrderItem>, b: seq<OrderItem>)
    decreases |b|
    ensures Total(a + b) == Total(a) + Total(b)
  {
    if b == [] {
      assert a + b == a;
    } else {
      var n := |b| - 1;
      assert (a + b)[..|a| + n] == a + b[..n];
      assert (a + b)[|a| + n] == b[n];
      TotalAppend(a, b[..n]);
    }
  }

  /** Lines with non-negative prices and quantities have a non-negative
      total. */
  lemma {:induction false} TotalNonNegative(items: seq<OrderItem>)
    decreases |items|
    requires forall k :: 0 <= k < |items| ==> 0 <= items[k].price && 0 <= items[k].quantity
    ensures 0 <= Total(items)
  {
    if items != [] {
      var n := |items| - 1;
      assert forall k :: 0 <= k < n ==> items[..n][k] == items[k];
      TotalNonNegative(items[..n]);
    }
  }

  // ---------------------------------------------------------------------
  // Stock writes
  // ---------------------------------------------------------------------

  /** The total quantity the lines hold of product `id`. */
  function QuantityOf(items: seq<OrderItem>, id: Id): int {
    if items == [] then 0
    else
      var n := |items| - 1;
      QuantityOf(items[..n], id) + (if items[n].productId == id then items[n].quantity else 0)
  }

  /** Adds `delta` to the stock of product `id`, when it exists. */
  function Adjust(products: Products, id: Id, delta: int): Products {
    if id in products then products[id := products[id].(stock := products[id].stock + delta)]
    else products
  }

  /** Takes each line's quantity out of its product's stock, line by line. */
  function Withdraw(products: Products, items: seq<OrderItem>): (r: Products)
    decreases |items|
    ensures r.Keys == products.Keys
    ensures forall id :: id in products ==>
      r[id] == products[id].(stock := products[id].stock - QuantityOf(items, id))
  {
    if items == [] then products
    else
      var n := |items| - 1;
      Adjust(Withdraw(products, items[..n]), items[n].productId, -items[n].quantity)
  }

  /** Puts each line's quantity back into its product's stock, line by line. */
  function Restock(products: Products, items: seq<OrderItem>): (r: Products)
    decreases |items|
    ensures r.Keys == products.Keys
    ensures forall id :: id in products ==>
      r[id] == products[id].(stock := products[id].stock + QuantityOf(items, id))
  {
    if items == [] then products
    else
      var n := |items| - 1;
      Adjust(Restock(products, items[..n]), items[n].productId, items[n].quantity)
  }

  lemma {:induction false} QuantityOfAbsent(items: seq<OrderItem>, id: Id)
    requires forall k :: 0 <= k < |items| ==> items[k].productId != id
    ensures QuantityOf(items, id) == 0
  {
    if items != [] {
      var n := |items| - 1;
      QuantityOfAbsent(items[..n], id);
    }
  }

  /** With one line per product, a product's quantity is that of its line. */
  lemma {:induction false} QuantityOfDistinct(items: seq<OrderItem>, k: nat)
    requires DistinctItems(items) && k < |items|
    ensures QuantityOf(items, items[k].productId) == items[k].quantity
  {
    var n := |items| - 1;
    if k == n {
      QuantityOfAbsent(items[..n], items[k].productId);
    } else {
      QuantityOfDistinct(items[..n], k);
    }
  }

  lemma {:induction false} QuantityOfNonNegative(items: seq<OrderItem>, id: Id)
    requires forall k :: 0 <= k < |items| ==> items[k].quantity >= 1
    ensures QuantityOf(items, id) >= 0
  {
    if items != [] {
      QuantityOfNonNegative(items[..|items| - 1], id);
    }
  }

  /** Withdrawing lines the stock covers, one per product, leaves every
      stock non-negative. */
  lemma WithdrawCoveredKeepsStock(products: Products, items: seq<OrderItem>)
    requires StockNonNegative(products) && DistinctItems(items) && Covered(products, items)
    ensures StockNonNegative(Withdraw(products, items))
  {
    forall id | id in products
      ensures Withdraw(products, items)[id].stock >= 0
    {
      if k :| 0 <= k < |items| && items[k].productId == id {
        QuantityOfDistinct(items, k);
      } else {
        QuantityOfAbsent(items, id);
      }
    }
  }

  /** Restocking positive quantities leaves every stock non-negative. */
  lemma RestockKeepsStock(products: Products, items: seq<OrderItem>)
    requires StockNonNegative(products)
    requires forall k :: 0 <= k < |items| ==> items[k].quantity >= 1
    ensures StockNonNegative(Restock(products, items))
  {
    forall id | id in products
      ensures Restock(products, items)[id].stock >= 0
    {
      QuantityOfNonNegative(items, id);
    }
  }

  /** Restocking the lines just withdrawn gives back the same table, and so
      does the reverse. */
  lemma RestockUndoesWithdraw(products: Products, items: seq<OrderItem>)
    ensures Restock(Withdraw(products, items), items) == products
    ensures Withdraw(Restock(products, items), items) == products
  {
    var a := Restock(Withdraw(products, items), items);
    assert forall id :: id in products ==> a[id] == products[id];
    var b := Withdraw(Restock(products, items), items);
    assert forall id :: id in products ==> b[id] == products[id];
  }

  // ---------------------------------------------------------------------
  // Order creation, on the product table
  // ---------------------------------------------------------------------

  /** What an accepted request stores: one priced line per requested line,
      each for a known product, a positive quantity and covered by stock. */
  lemma PricedItemsWellFormed(products: Products, items: seq<ItemInput>)
    requires DistinctInputs(items) && PriceItems(products, items).Success?
    ensures WellFormedItems(products, PriceItems(products, items).value)
    ensures Covered(products, PriceItems(products, items).value)
  {
    var priced := PriceItems(products, items).value;
    forall i, j | 0 <= i < j < |priced|
      ensures priced[i].productId != priced[j].productId
    {
      assert Snapshots(products, items[i], priced[i]);
      assert Snapshots(products, items[j], priced[j]);
    }
    forall k | 0 <= k < |priced|
      ensures priced[k].productId in products && priced[k].quantity >= 1
      ensures priced[k].quantity <= products[priced[k].productId].stock
    {
      assert Snapshots(products, items[k], priced[k]) && Orderable(products, items[k]);
    }
  }

  /** Creating an order lowers each ordered product's stock by exactly its
      quantity and keeps it non-negative. */
  lemma CreateOrderTakesStock(products: Products, items: seq<ItemInput>, k: nat)
    requires DistinctInputs(items) && PriceItems(products, items).Success? && k < |items|
    ensures var id := items[k].productId;
      && id in products
      && var after := Withdraw(products, PriceItems(products, items).value);
         && after[id] == products[id].(stock := products[id].stock - items[k].quantity)
         && after[id].stock >= 0
  {
    var priced := PriceItems(products, items).value;
    PricedItemsWellFormed(products, items);
    assert Snapshots(products, items[k], priced[k]) && Orderable(products, items[k]);
    QuantityOfDistinct(priced, k);
  }

  /** Creating an order leaves every product it does not name as it was. */
  lemma CreateOrderKeepsOtherStock(products: Products, items: seq<ItemInput>, id: Id)
    requires PriceItems(products, items).Success? && id in products
    requires forall k :: 0 <= k < |items| ==> items[k].productId != id
    ensures Withdraw(products, PriceItems(products, items).value)[id] == products[id]
  {
    var priced := PriceItems(products, items).value;
    forall k | 0 <= k < |priced| ensures priced[k].productId != id {
      assert Snapshots(products, items[k], priced[k]);
    }
    QuantityOfAbsent(priced, id);
  }

  // ---------------------------------------------------------------------
  // Status transitions
  // ---------------------------------------------------------------------

  /** The stock effect of moving `order` to `newStatus`: entering
      `Cancelled` puts the quantities back; leaving it takes them out again,
      or fails with Conflict when some product's stock no longer covers its
      line; every other move leaves the stock alone. */
  function Transition(products: Products, order: Order, newStatus: OrderStatus): (r: Result<Products>)
    ensures r.Failure? <==>
      order.status == Cancelled && newStatus != Cancelled && !Covered(products, order.items)
    ensures r.Failure? ==> r.error == Conflict
    ensures (newStatus == Cancelled <==> order.status == Cancelled) ==> r == Success(products)
  {
    if newStatus == Cancelled && order.status != Cancelled then
      Success(Restock(products, order.items))
    else if order.status == Cancelled && newStatus != Cancelled then
      if Covered(products, order.items) then Success(Withdraw(products, order.items))
      else Failure(Conflict)
    else
      Success(products)
  }

  /** Cancelling raises each ordered product's stock by its line's quantity. */
  lemma CancelReturnsStock(products: Products, order: Order, k: nat)
    requires order.status != Cancelled
    requires DistinctItems(order.items) && k < |order.items|
    requires order.items[k].productId in products
    ensures var id := order.items[k].productId;
      && Transition(products, order, Cancelled).Success?
      && Transition(products, order, Cancelled).value[id].stock
           == products[id].stock + order.items[k].quantity
  {
    QuantityOfDistinct(order.items, k);
  }

  /** Reopening a cancelled order lowers each ordered product's stock by its
      line's quantity, when the stock covers every line. */
  lemma ReopenTakesStock(products: Products, order: Order, newStatus: OrderStatus, k: nat)
    requires order.status == Cancelled && newStatus != Cancelled
    requires DistinctItems(order.items) && Covered(products, order.items) && k < |order.items|
    ensures var id := order.items[k].productId;
      && Transition(products, order, newStatus).Success?
      && Transition(products, order, newStatus).value[id].stock
           == products[id].stock - order.items[k].quantity
  {
    QuantityOfDistinct(order.items, k);
  }

  /** No transition of a well-formed order drives a stock below zero. */
  lemma TransitionKeepsStock(products: Products, order: Order, newStatus: OrderStatus)
    requires StockNonNegative(products) && WellFormedItems(products, order.items)
    requires Transition(products, order, newStatus).Success?
    ensures StockNonNegative(Transition(products, order, newStatus).value)
  {
    if newStatus == Cancelled && order.status != Cancelled {
      RestockKeepsStock(products, order.items);
    } else if order.status == Cancelled && newStatus != Cancelled {
      WithdrawCoveredKeepsStock(products, order.items);
    }
  }

  /** Cancelling an order and then moving it to any other status gives back
      exactly the stock it had before the cancellation. */
  lemma CancelRoundTrip(products: Products, order: Order, newStatus: OrderStatus)
    requires order.status != Cancelled && newStatus != Cancelled
    requires StockNonNegative(products) && WellFormedItems(products, order.items)
    ensures Transition(products, order, Cancelled).Success?
    ensures Transition(Transition(products, order, Cancelled).value,
                       order.(status := Cancelled), newStatus) == Success(products)
  {
    var restocked := Restock(products, order.items);
    forall k | 0 <= k < |order.items|
      ensures order.items[k].productId in restocked
      ensures order.items[k].quantity <= restocked[order.items[k].productId].stock
    {
      QuantityOfDistinct(order.items, k);
    }
    assert Covered(restocked, order.items);
    RestockUndoesWithdraw(products, order.items);
  }

  // ---------------------------------------------------------------------
  // The unbounded order quantity
  // ---------------------------------------------------------------------

  /** With the checks as written, a negative quantity is accepted even at
      zero stock (it raises the stock and lowers the total), and cancelling
      that order once the stock has been sold again drives the stock below
      zero. */
  lemma NegativeQuantityDrivesStockNegative()
    ensures
      var scarf := Product("scarf", 0, [Price(Medium, 1000)]);
      var p0 := map[0 := scarf];
      var bad := ItemInput(0, -3, Medium);
      && PriceItemAsWritten(p0, bad) == Success(OrderItem(0, -3, Medium, 1000))
      && var line := OrderItem(0, -3, Medium, 1000);
         var p1 := Withdraw(p0, [line]);
         && p1[0].stock == 3
         && Total([line]) == -3000
         && var sold := PriceItemAsWritten(p1, ItemInput(0, 3, Medium));
            && sold == Success(OrderItem(0, 3, Medium, 1000))
            && var p2 := Withdraw(p1, [sold.value]);
               var order := Order(0, 0, [line], Total([line]), Pending, false);
               && p2[0].stock == 0
               && Transition(p2, order, Cancelled).Success?
               && Transition(p2, order, Cancelled).value[0].stock == -3
  {
    var line := OrderItem(0, -3, Medium, 1000);
    assert [line][..0] == [];
    assert QuantityOf([line], 0) == -3;
    assert QuantityOf([OrderItem(0, 3, Medium, 1000)], 0) == 3;
  }
}
