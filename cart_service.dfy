/** The cart store: one cart per user, found or created on demand, and its
    line items (src/cart/cart.service.ts). */
module CartService {
  import opened Results
  import opened Catalog
  import opened Store

  /** A cart with its items, as the cart query returns it. */
  datatype CartView = CartView(id: Id, cart: Cart, items: map<Id, CartItem>)

  /** The rows of the cart-item table that belong to cart `cartId`. */
  function ItemsOfCart(cartItems: map<Id, CartItem>, cartId: Id): (r: map<Id, CartItem>)
    ensures forall k :: k in r <==> k in cartItems && cartItems[k].cartId == cartId
    ensures forall k :: k in r ==> r[k] == cartItems[k]
  {
    map k | k in cartItems && cartItems[k].cartId == cartId :: cartItems[k]
  }

  /** Adding a row to one cart leaves every other cart's rows as they were. */
  lemma ItemsOfCartAdd(cartItems: map<Id, CartItem>, itemId: Id, item: CartItem, cartId: Id)
    requires itemId !in cartItems
    ensures ItemsOfCart(cartItems[itemId := item], cartId) ==
      if item.cartId == cartId then ItemsOfCart(cartItems, cartId)[itemId := item]
      else ItemsOfCart(cartItems, cartId)
  {
    var after := ItemsOfCart(cartItems[itemId := item], cartId);
    var before := ItemsOfCart(cartItems, cartId);
    if item.cartId == cartId {
      assert after.Keys == before.Keys + {itemId};
    } else {
      assert after.Keys == before.Keys;
    }
  }

  /** The user's cart with its items, or nothing when the user has none. */
  function GetCartByUserId(db: Db, userId: Id): (r: Option<CartView>)
    reads db
    requires OneCartPerUser(db.carts)
    ensures r.None? <==> forall k :: k in db.carts ==> db.carts[k].userId != userId
    ensures r.Some? ==>
      && r.value.id in db.carts && r.value.cart == db.carts[r.value.id]
      && r.value.cart.userId == userId
      && r.value.items == ItemsOfCart(db.cartItems, r.value.id)
  {
    match CartIdOf(db.carts, userId)
    case None => None
    case Some(id) => Some(CartView(id, db.carts[id], ItemsOfCart(db.cartItems, id)))
  }

  /** Adds a new line item to the user's cart, creating the cart (not yet
      ordered) when the user has none. An item for the same product and
      size is never merged: the store always gains exactly one row. */
  method AddToCart(db: Db, userId: Id, productId: Id, quantity: int, size: Size)
    returns (itemId: Id, item: CartItem)
    requires db.Valid()
    requires quantity >= 1
    modifies db`carts, db`cartItems, db`nextId
    ensures db.Valid()
    ensures CartIdOf(old(db.carts), userId).Some? ==>
      db.carts == old(db.carts) && item.cartId == CartIdOf(old(db.carts), userId).value
    ensures CartIdOf(old(db.carts), userId).None? ==>
      item.cartId !in old(db.carts) && db.carts == old(db.carts)[item.cartId := Cart(userId, false)]
    ensures CartIdOf(db.carts, userId) == Some(item.cartId)
    ensures item == CartItem(item.cartId, productId, quantity, size)
    ensures itemId !in old(db.cartItems) && db.cartItems == old(db.cartItems)[itemId := item]
    ensures |db.cartItems| == |old(db.cartItems)| + 1
  {
    var cartId: Id;
    match CartIdOf(db.carts, userId) {
      case Some(id) =>
        cartId := id;
      case None =>
        cartId := db.nextId;
        db.carts := db.carts[cartId := Cart(userId, false)];
        db.nextId := db.nextId + 1;
    }
    assert cartId in db.carts && db.carts[cartId].userId == userId;
    assert OneCartPerUser(db.carts);
    itemId := db.nextId;
    item := CartItem(cartId, productId, quantity, size);
    ItemsOfCartAdd(db.cartItems, itemId, item, cartId);
    db.cartItems := db.cartItems[itemId := item];
    db.nextId := db.nextId + 1;
  }

  /** Deletes one cart item by id; an unknown id is NotFound and changes
      nothing. */
  method RemoveCartItem(db: Db, cartItemId: Id) returns (r: Result<bool>)
    requires db.Valid()
    modifies db`cartItems
    ensures db.Valid()
    ensures cartItemId !in old(db.cartItems) ==>
      r == Failure(NotFound) && db.cartItems == old(db.cartItems)
    ensures cartItemId in old(db.cartItems) ==>
      r == Success(true) && db.cartItems == old(db.cartItems) - {cartItemId}
  {
    if cartItemId !in db.cartItems {
      return Failure(NotFound);
    }
    db.cartItems := db.cartItems - {cartItemId};
    r := Success(true);
  }
}
