/** Order creation and the order status machine over the store
    (src/order/order.service.ts). Each operation runs as one transaction:
    an operation that fails leaves the store as it found it. */
module OrderService {
  import opened Results
  import opened Catalog
  import opened Orders
  import opened Store

  /** Looks an order up by id. */
  function GetOrderById(db: Db, id: Id): (r: Option<Order>)
    reads db
    ensures r.Some? <==> id in db.orders
    ensures r.Some? ==> r.value == db.orders[id]
  {
    if id in db.orders then Some(db.orders[id]) else None
  }

  /** Creates an order for `items`: checks that the user and the delivery
      details exist and that every line is orderable, stores the order as
      `Pending` with each line's price snapshotted and the total of the
      lines, takes the quantities out of stock, then attempts the
      confirmation email (`sendSucceeds` is its outcome) and records whether
      it went out. Returns the new order's id and the order as created. */
  method CreateOrder(db: Db, userId: Id, userDetailsId: Id, items: seq<ItemInput>, sendSucceeds: bool)
    returns (r: Result<(Id, Order)>)
    requires db.Valid()
    requires DistinctInputs(items)
    modifies db`orders, db`products, db`nextId
    ensures db.Valid()
    ensures r.Failure? ==>
      db.orders == old(db.orders) && db.products == old(db.products) && db.nextId == old(db.nextId)
    ensures r.Success? <==>
      userId in old(db.users) && userDetailsId in old(db.details) && PriceItems(old(db.products), items).Success?
    ensures userId !in db.users || userDetailsId !in db.details ==> r == Failure(NotFound)
    ensures userId in db.users && userDetailsId in db.details && PriceItems(old(db.products), items).Failure? ==>
      r == Failure(PriceItems(old(db.products), items).error)
    ensures r.Success? ==>
      && userId in db.users && userDetailsId in db.details
      && PriceItems(old(db.products), items).Success?
      && var lines := PriceItems(old(db.products), items).value;
         && r.value.0 !in old(db.orders)
         && r.value.1 == Order(userId, userDetailsId, lines, Total(lines), Pending, false)
         && db.orders == old(db.orders)[r.value.0 := r.value.1.(emailSent := sendSucceeds)]
         && db.products == Withdraw(old(db.products), lines)
  {
    if userId !in db.users || userDetailsId !in db.details {
      return Failure(NotFound);
    }

    // Price and check every requested line.
    var priced := CheckLines(db.products, items);
    if priced.Failure? {
      return Failure(priced.error);
    }
    var lines := priced.value;
    PricedItemsWellFormed(db.products, items);

    var id, order := PlaceOrder(db, userId, userDetailsId, lines, sendSucceeds);
    r := Success((id, order));
  }

  /** The writes of an accepted request: stores the order as `Pending` with
      its priced lines and total, takes the quantities out of stock, then
      flips `emailSent` when the confirmation email went out. */
  method PlaceOrder(db: Db, userId: Id, userDetailsId: Id, lines: seq<OrderItem>, sendSucceeds: bool)
    returns (id: Id, order: Order)
    requires db.Valid()
    requires WellFormedItems(db.products, lines) && Covered(db.products, lines)
    modifies db`orders, db`products, db`nextId
    ensures db.Valid()
    ensures id !in old(db.orders)
    ensures order == Order(userId, userDetailsId, lines, Total(lines), Pending, false)
    ensures db.orders == old(db.orders)[id := order.(emailSent := sendSucceeds)]
    ensures db.products == Withdraw(old(db.products), lines)
  {
    // Store the order with its lines.
    id := db.nextId;
    order := Order(userId, userDetailsId, lines, Total(lines), Pending, false);
    OrdersConsistentAdd(db.orders, db.products, id, order);
    db.orders := db.orders[id := order];
    db.nextId := db.nextId + 1;

    // Write each product's stock from the value read while checking.
    var before := db.products;
    TakeStock(db, lines);
    WithdrawCoveredKeepsStock(before, lines);
    OrdersConsistentSameProducts(db.orders, before, db.products);

    // The confirmation email is best effort: its failure keeps the order.
    if sendSucceeds {
      OrdersConsistentAdd(db.orders, db.products, id, order.(emailSent := true));
      db.orders := db.orders[id := order.(emailSent := true)];
    }
    assert order.(emailSent := false) == order;
    assert db.orders == old(db.orders)[id := order.(emailSent := sendSucceeds)];
  }

  /** Moves order `id` to `newStatus`. Entering `Cancelled` puts each line's
      quantity back in stock; leaving it takes the quantities out again and
      fails with Conflict, changing nothing, when a stock read does not cover
      its line. Any other move only sets the status. */
  method UpdateOrderStatus(db: Db, id: Id, newStatus: OrderStatus) returns (r: Result<Order>)
    requires db.Valid()
    modifies db`orders, db`products
    ensures db.Valid()
    ensures id !in old(db.orders) ==>
      r == Failure(NotFound) && db.orders == old(db.orders) && db.products == old(db.products)
    ensures id in old(db.orders) ==>
      var t := Transition(old(db.products), old(db.orders[id]), newStatus);
      && (t.Failure? ==>
            r == Failure(t.error) && db.orders == old(db.orders) && db.products == old(db.products))
      && (t.Success? ==>
            && db.products == t.value
            && db.orders == old(db.orders)[id := old(db.orders[id]).(status := newStatus)]
            && r == Success(db.orders[id]))
  {
    if id !in db.orders {
      return Failure(NotFound);
    }
    var order := db.orders[id];
    assert WellFormedItems(db.products, order.items);
    var before := db.products;
    if newStatus == Cancelled && order.status != Cancelled {
      ReturnStock(db, order.items);
      RestockKeepsStock(before, order.items);
    } else if order.status == Cancelled && newStatus != Cancelled {
      var covered := TakeStockIfCovered(db, order.items);
      if !covered {
        return Failure(Conflict);
      }
      WithdrawCoveredKeepsStock(before, order.items);
    }
    OrdersConsistentSameProducts(db.orders, before, db.products);
    db.orders := db.orders[id := order.(status := newStatus)];
    r := Success(db.orders[id]);
  }

  /** Prices and checks the requested lines one after the other, stopping
      at the first rejected line. */
  method CheckLines(products: Products, items: seq<ItemInput>) returns (r: Result<seq<OrderItem>>)
    ensures r == PriceItems(products, items)
  {
    var lines: seq<OrderItem> := [];
    var i := 0;
    while i < |items|
      invariant 0 <= i <= |items|
      invariant PriceItems(products, items[..i]) == Success(lines)
    {
      assert items[..i + 1][..i] == items[..i];
      match PriceItem(products, items[i]) {
        case Failure(e) =>
          assert forall j :: 0 <= j < i ==> items[..i][j] == items[j];
          assert !Orderable(products, items[i]);
          return Failure(e);
        case Success(line) =>
          lines := lines + [line];
      }
      i := i + 1;
    }
    assert items[..i] == items;
    r := Success(lines);
  }

  /** Sets each line's product stock to the value read before the writes
      less the line's quantity. */
  method TakeStock(db: Db, lines: seq<OrderItem>)
    requires DistinctItems(lines)
    requires forall k :: 0 <= k < |lines| ==> lines[k].productId in db.products
    modifies db`products
    ensures db.products == Withdraw(old(db.products), lines)
  {
    var before := db.products;
    var j := 0;
    while j < |lines|
      invariant 0 <= j <= |lines|
      invariant db.products == Withdraw(before, lines[..j])
    {
      var line := lines[j];
      QuantityOfAbsent(lines[..j], line.productId);
      db.products := db.products[line.productId :=
        db.products[line.productId].(stock := before[line.productId].stock - line.quantity)];
      assert lines[..j + 1][..j] == lines[..j];
      j := j + 1;
    }
    assert lines[..j] == lines;
  }

  /** Sets each line's product stock to the value read before the writes
      plus the line's quantity. */
  method ReturnStock(db: Db, lines: seq<OrderItem>)
    requires DistinctItems(lines)
    requires forall k :: 0 <= k < |lines| ==> lines[k].productId in db.products
    modifies db`products
    ensures db.products == Restock(old(db.products), lines)
  {
    var before := db.products;
    var j := 0;
    while j < |lines|
      invariant 0 <= j <= |lines|
      invariant db.products == Restock(before, lines[..j])
    {
      var line := lines[j];
      QuantityOfAbsent(lines[..j], line.productId);
      db.products := db.products[line.productId :=
        db.products[line.productId].(stock := before[line.productId].stock + line.quantity)];
      assert lines[..j + 1][..j] == lines[..j];
      j := j + 1;
    }
    assert lines[..j] == lines;
  }

  /** Like TakeStock, but refuses a line whose stock read does not cover its
      quantity; refusing rolls back the writes already made. */
  method TakeStockIfCovered(db: Db, lines: seq<OrderItem>) returns (covered: bool)
    requires DistinctItems(lines)
    requires forall k :: 0 <= k < |lines| ==> lines[k].productId in db.products
    modifies db`products
    ensures covered == Covered(old(db.products), lines)
    ensures covered ==> db.products == Withdraw(old(db.products), lines)
    ensures !covered ==> db.products == old(db.products)
  {
    var before := db.products;
    var j := 0;
    while j < |lines|
      invariant 0 <= j <= |lines|
      invariant db.products == Withdraw(before, lines[..j])
      invariant forall k :: 0 <= k < j ==> lines[k].quantity <= before[lines[k].productId].stock
    {
      var line := lines[j];
      if before[line.productId].stock < line.quantity {
        db.products := before;
        return false;
      }
      QuantityOfAbsent(lines[..j], line.productId);
      db.products := db.products[line.productId :=
        db.products[line.productId].(stock := before[line.productId].stock - line.quantity)];
      assert lines[..j + 1][..j] == lines[..j];
      j := j + 1;
    }
    assert lines[..j] == lines;
    covered := true;
  }
}
