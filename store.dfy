/** The relational store the services share, held in memory: one map per
    table from generated id to row. Order items are held inside their order
    (`Order.items`), so removing an order removes its items with it. */
module Store {
  import opened Results
  import opened Catalog
  import opened Orders

  datatype User = User(name: string, email: string, password: string, isAdmin: bool)

  /** A user's delivery details; at most one record per user. */
  datatype UserDetails = UserDetails(userId: Id, address: string, city: string,
                                     pincode: int, country: string, phone: string)

  /** A user's cart; at most one per user. */
  datatype Cart = Cart(userId: Id, isOrdered: bool)

  datatype CartItem = CartItem(cartId: Id, productId: Id, quantity: int, size: Size)

  predicate KeysBelow<V>(m: map<Id, V>, bound: nat) {
    forall k :: k in m ==> k < bound
  }

  /** `email` is a unique column of the user table. */
  predicate UniqueEmails(users: map<Id, User>) {
    forall a, b :: a in users && b in users && users[a].email == users[b].email ==> a == b
  }

  /** `userId` is a unique column of the details table. */
  predicate OneDetailsPerUser(details: map<Id, UserDetails>) {
    forall a, b :: a in details && b in details && details[a].userId == details[b].userId ==> a == b
  }

  /** `userId` is a unique column of the cart table. */
  predicate OneCartPerUser(carts: map<Id, Cart>) {
    forall a, b :: a in carts && b in carts && carts[a].userId == carts[b].userId ==> a == b
  }

  /** Every stored order is well formed over the product table and carries
      the total of its lines. */
  predicate OrdersConsistent(orders: map<Id, Order>, products: Products) {
    forall k :: k in orders ==>
      WellFormedItems(products, orders[k].items) && orders[k].totalAmount == Total(orders[k].items)
  }

  /** Stock writes keep the product ids, so they keep the stored orders
      consistent. */
  lemma OrdersConsistentSameProducts(orders: map<Id, Order>, products: Products, products': Products)
    requires OrdersConsistent(orders, products) && products'.Keys == products.Keys
    ensures OrdersConsistent(orders, products')
  {
    forall k | k in orders ensures WellFormedItems(products', orders[k].items) {
      assert WellFormedItems(products, orders[k].items);
    }
  }

  /** Adding a well-formed order that carries its total keeps the orders
      consistent. */
  lemma OrdersConsistentAdd(orders: map<Id, Order>, products: Products, id: Id, order: Order)
    requires OrdersConsistent(orders, products)
    requires WellFormedItems(products, order.items) && order.totalAmount == Total(order.items)
    ensures OrdersConsistent(orders[id := order], products)
  {
  }

  /** Lookup through the unique `email` column. */
  function UserIdByEmail(users: map<Id, User>, email: string): (r: Option<Id>)
    requires UniqueEmails(users)
    ensures r.None? <==> forall k :: k in users ==> users[k].email != email
    ensures r.Some? ==> r.value in users && users[r.value].email == email
    ensures r.Some? ==> forall k :: k in users && users[k].email == email ==> k == r.value
  {
    if exists k :: k in users && users[k].email == email then
      var k :| k in users && users[k].email == email; Some(k)
    else None
  }

  /** Lookup through the unique `userId` column of the details table. */
  function DetailsIdOf(details: map<Id, UserDetails>, userId: Id): (r: Option<Id>)
    requires OneDetailsPerUser(details)
    ensures r.None? <==> forall k :: k in details ==> details[k].userId != userId
    ensures r.Some? ==> r.value in details && details[r.value].userId == userId
  {
    if exists k :: k in details && details[k].userId == userId then
      var k :| k in details && details[k].userId == userId; Some(k)
    else None
  }

  /** Lookup through the unique `userId` column of the cart table. */
  function CartIdOf(carts: map<Id, Cart>, userId: Id): (r: Option<Id>)
    requires OneCartPerUser(carts)
    ensures r.None? <==> forall k :: k in carts ==> carts[k].userId != userId
    ensures r.Some? ==> r.value in carts && carts[r.value].userId == userId
  {
    if exists k :: k in carts && carts[k].userId == userId then
      var k :| k in carts && carts[k].userId == userId; Some(k)
    else None
  }

  class Db {
    var users: map<Id, User>
    var details: map<Id, UserDetails>
    var products: map<Id, Product>
    var orders: map<Id, Order>
    var carts: map<Id, Cart>
    var cartItems: map<Id, CartItem>
    /** The next generated id; every id in use is below it. */
    var nextId: nat

    /** The constraints every committed state keeps. */
    ghost predicate Valid()
      reads this
    {
      && KeysBelow(users, nextId) && KeysBelow(details, nextId) && KeysBelow(products, nextId)
      && KeysBelow(orders, nextId) && KeysBelow(carts, nextId) && KeysBelow(cartItems, nextId)
      && UniqueEmails(users)
      && OneDetailsPerUser(details)
      && OneCartPerUser(carts)
      && StockNonNegative(products)
      && OrdersConsistent(orders, products)
    }

    /** An empty store. */
    constructor ()
      ensures Valid()
      ensures users == map[] && details == map[] && products == map[]
      ensures orders == map[] && carts == map[] && cartItems == map[]
    {
      users, details, products := map[], map[], map[];
      orders, carts, cartItems := map[], map[], map[];
      nextId := 0;
    }
  }
}
