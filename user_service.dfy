/** The user account store: lookups, profile and password updates, the
    delivery-details record, and deleting a user with everything they own
    (src/user/user.service.ts). Password hashing and comparison are
    parameters: `hash` stands for the salted hash and `matches(plain, stored)`
    for checking a plain password against a stored hash. */
module UserService {
  import opened Results
  import opened Catalog
  import opened Orders
  import opened Store
  import CartService

  /** A user with their delivery details, when they have any. */
  datatype Profile = Profile(id: Id, user: User, details: Option<UserDetails>)

  /** The columns a password change returns: the stored hash is not among
      them. */
  datatype Account = Account(id: Id, email: string, name: string)

  /** The fields a profile update may supply; `None` is a field left out. */
  datatype UserUpdate = UserUpdate(name: Option<string>, email: Option<string>,
                                   password: Option<string>, isAdmin: Option<bool>)

  /** The fields a delivery-details update may supply. */
  datatype DetailsUpdate = DetailsUpdate(address: Option<string>, city: Option<string>,
                                         pincode: Option<int>, country: Option<string>,
                                         phone: Option<string>)

  // ---------------------------------------------------------------------
  // Lookups
  // ---------------------------------------------------------------------

  function DetailsOfUser(details: map<Id, UserDetails>, userId: Id): (r: Option<UserDetails>)
    requires OneDetailsPerUser(details)
    ensures r.None? <==> forall k :: k in details ==> details[k].userId != userId
    ensures r.Some? ==> r.value.userId == userId && r.value in details.Values
  {
    match DetailsIdOf(details, userId)
    case None => None
    case Some(k) => Some(details[k])
  }

  /** The orders placed by `userId`, with their items. */
  function OrdersOfUser(orders: map<Id, Order>, userId: Id): (r: map<Id, Order>)
    ensures forall k :: k in r <==> k in orders && orders[k].userId == userId
    ensures forall k :: k in r ==> r[k] == orders[k]
  {
    map k | k in orders && orders[k].userId == userId :: orders[k]
  }

  function ProfileOf(db: Db, id: Id): Profile
    reads db
    requires OneDetailsPerUser(db.details) && id in db.users
  {
    Profile(id, db.users[id], DetailsOfUser(db.details, id))
  }

  /** The user `id` with their details and orders; NotFound for an unknown
      id. (`findUserWithOrders` runs the same query.) */
  function FindOne(db: Db, id: Id): (r: Result<(Profile, map<Id, Order>)>)
    reads db
    requires OneDetailsPerUser(db.details)
    ensures r.Failure? <==> id !in db.users
    ensures r.Failure? ==> r.error == NotFound
    ensures r.Success? ==>
      && r.value.0.id == id && r.value.0.user == db.users[id]
      && r.value.0.details == DetailsOfUser(db.details, id)
      && r.value.1 == OrdersOfUser(db.orders, id)
      && (forall k :: k in r.value.1 <==> k in db.orders && db.orders[k].userId == id)
  {
    if id !in db.users then Failure(NotFound)
    else Success((ProfileOf(db, id), OrdersOfUser(db.orders, id)))
  }

  /** The user `id` with their details and their cart (and its items);
      NotFound for an unknown id. */
  function FindUserWithCart(db: Db, id: Id): (r: Result<(Profile, Option<CartService.CartView>)>)
    reads db
    requires OneDetailsPerUser(db.details) && OneCartPerUser(db.carts)
    ensures r.Failure? <==> id !in db.users
    ensures r.Failure? ==> r.error == NotFound
    ensures r.Success? ==>
      && r.value.0.id == id && r.value.0.user == db.users[id]
      && r.value.0.details == DetailsOfUser(db.details, id)
      && r.value.1 == CartService.GetCartByUserId(db, id)
  {
    if id !in db.users then Failure(NotFound)
    else Success((ProfileOf(db, id), CartService.GetCartByUserId(db, id)))
  }

  /** The user holding `email`, with their details; NotFound when no user
      holds it. */
  function FindByEmail(db: Db, email: string): (r: Result<Profile>)
    reads db
    requires UniqueEmails(db.users) && OneDetailsPerUser(db.details)
    ensures r.Failure? <==> forall k :: k in db.users ==> db.users[k].email != email
    ensures r.Failure? ==> r.error == NotFound
    ensures r.Success? ==>
      && r.value.id in db.users && r.value.user == db.users[r.value.id]
      && r.value.user.email == email
      && r.value.details == DetailsOfUser(db.details, r.value.id)
  {
    match UserIdByEmail(db.users, email)
    case None => Failure(NotFound)
    case Some(id) => Success(ProfileOf(db, id))
  }

  // ---------------------------------------------------------------------
  // Profile update
  // ---------------------------------------------------------------------

  /** Some user other than `id` holds `email`. */
  predicate EmailHeldByOther(users: map<Id, User>, email: string, id: Id) {
    exists k :: k in users && k != id && users[k].email == email
  }

  /** Submitting the email one already holds never counts as taken. */
  lemma OwnEmailIsFree(users: map<Id, User>, id: Id)
    requires UniqueEmails(users) && id in users
    ensures !EmailHeldByOther(users, users[id].email, id)
  {
  }

  /** The row written by an update: every supplied field overwrites the
      stored one, except that a non-empty password is stored as its hash. */
  function ApplyUpdate(user: User, input: UserUpdate, hash: string -> string): (r: User)
    ensures input.password.Some? && input.password.value != "" ==> r.password == hash(input.password.value)
    ensures input.password.None? ==> r.password == user.password
    ensures r.email == (if input.email.Some? then input.email.value else user.email)
    ensures r.name == (if input.name.Some? then input.name.value else user.name)
    ensures r.isAdmin == (if input.isAdmin.Some? then input.isAdmin.value else user.isAdmin)
    ensures input.password == Some("") ==> r.password == ""
  {
    var password :=
      match input.password
      case None => user.password
      case Some(p) => if p != "" then hash(p) else p;
    User(
      if input.name.Some? then input.name.value else user.name,
      if input.email.Some? then input.email.value else user.email,
      password,
      if input.isAdmin.Some? then input.isAdmin.value else user.isAdmin)
  }

  /** Updates user `id` with the supplied fields. A non-empty email held by
      another user is refused with BadRequest; resubmitting one's own email
      is allowed. A write that would still break the unique email column
      (possible only for an empty email, which skips the check) is refused by
      the store. */
  method Update(db: Db, id: Id, input: UserUpdate, hash: string -> string) returns (r: Result<User>)
    requires db.Valid()
    modifies db`users
    ensures db.Valid()
    ensures r.Failure? ==> db.users == old(db.users)
    ensures id !in old(db.users) ==> r == Failure(NotFound)
    ensures (id in old(db.users) && input.email.Some? && input.email.value != ""
             && EmailHeldByOther(old(db.users), input.email.value, id)) ==> r == Failure(BadRequest)
    ensures r.Success? <==>
      id in old(db.users) && !EmailHeldByOther(old(db.users), ApplyUpdate(old(db.users)[id], input, hash).email, id)
    ensures r.Success? ==>
      && r.value == ApplyUpdate(old(db.users)[id], input, hash)
      && db.users == old(db.users)[id := r.value]
  {
    if id !in db.users {
      return Failure(NotFound);
    }
    if input.email.Some? && input.email.value != "" {
      if EmailHeldByOther(db.users, input.email.value, id) {
        return Failure(BadRequest);
      }
    }
    var updated := ApplyUpdate(db.users[id], input, hash);
    if EmailHeldByOther(db.users, updated.email, id) {
      // The unique email column rejects the write.
      return Failure(Internal);
    }
    db.users := db.users[id := updated];
    r := Success(updated);
  }

  // ---------------------------------------------------------------------
  // Delivery details
  // ---------------------------------------------------------------------

  predicate Truthy(s: Option<string>) {
    s.Some? && s.value != ""
  }

  /** The update of an existing record: only fields supplied with a truthy
      value (a non-empty string, a non-zero pincode) overwrite. */
  function MergeDetails(d: UserDetails, input: DetailsUpdate): (r: UserDetails)
    ensures r.userId == d.userId
    ensures Truthy(input.address) ==> r.address == input.address.value
    ensures r.address != d.address ==> Truthy(input.address)
    ensures Truthy(input.city) ==> r.city == input.city.value
    ensures r.city != d.city ==> Truthy(input.city)
    ensures input.pincode.Some? && input.pincode.value != 0 ==> r.pincode == input.pincode.value
    ensures r.pincode != d.pincode ==> input.pincode.Some? && input.pincode.value != 0
    ensures Truthy(input.country) ==> r.country == input.country.value
    ensures r.country != d.country ==> Truthy(input.country)
    ensures Truthy(input.phone) ==> r.phone == input.phone.value
    ensures r.phone != d.phone ==> Truthy(input.phone)
  {
    d.(address := if Truthy(input.address) then input.address.value else d.address,
       city := if Truthy(input.city) then input.city.value else d.city,
       pincode := if input.pincode.Some? && input.pincode.value != 0 then input.pincode.value else d.pincode,
       country := if Truthy(input.country) then input.country.value else d.country,
       phone := if Truthy(input.phone) then input.phone.value else d.phone)
  }

  /** The record created when the user has none: each field from the input
      when truthy, else `''` or `0`. */
  function NewDetails(userId: Id, input: DetailsUpdate): (r: UserDetails)
    ensures r.userId == userId
    ensures Truthy(input.address) ==> r.address == input.address.value
    ensures r.address == "" <==> !Truthy(input.address)
    ensures Truthy(input.city) ==> r.city == input.city.value
    ensures r.city == "" <==> !Truthy(input.city)
    ensures input.pincode.Some? ==> r.pincode == input.pincode.value
    ensures input.pincode.None? ==> r.pincode == 0
    ensures Truthy(input.country) ==> r.country == input.country.value
    ensures r.country == "" <==> !Truthy(input.country)
    ensures Truthy(input.phone) ==> r.phone == input.phone.value
    ensures r.phone == "" <==> !Truthy(input.phone)
  {
    UserDetails(userId,
      if Truthy(input.address) then input.address.value else "",
      if Truthy(input.city) then input.city.value else "",
      if input.pincode.Some? && input.pincode.value != 0 then input.pincode.value else 0,
      if Truthy(input.country) then input.country.value else "",
      if Truthy(input.phone) then input.phone.value else "")
  }

  /** An update whose every field is missing or falsy (an empty string, a
      pincode of 0) leaves the record as it was. */
  lemma FalsyUpdateKeepsDetails(d: UserDetails, input: DetailsUpdate)
    requires !Truthy(input.address) && !Truthy(input.city) && !Truthy(input.country) && !Truthy(input.phone)
    requires input.pincode.None? || input.pincode.value == 0
    ensures MergeDetails(d, input) == d
  {
  }

  /** Applying the same update twice is applying it once. */
  lemma MergeDetailsIdempotent(d: UserDetails, input: DetailsUpdate)
    ensures MergeDetails(MergeDetails(d, input), input) == MergeDetails(d, input)
  {
  }

  /** Creating with defaults is merging the input into a blank record. */
  lemma NewDetailsIsMergeIntoBlank(userId: Id, input: DetailsUpdate)
    ensures NewDetails(userId, input) == MergeDetails(UserDetails(userId, "", "", 0, "", ""), input)
  {
  }

  /** Updates the user's delivery details, or creates the record when the
      user has none; NotFound for an unknown user. */
  method UpdateUserDetails(db: Db, userId: Id, input: DetailsUpdate) returns (r: Result<UserDetails>)
    requires db.Valid()
    modifies db`details, db`nextId
    ensures db.Valid()
    ensures userId !in old(db.users) ==> r == Failure(NotFound) && db.details == old(db.details)
    ensures userId in old(db.users) ==> r.Success? && DetailsOfUser(db.details, userId) == Some(r.value)
    ensures userId in old(db.users) && DetailsIdOf(old(db.details), userId).Some? ==>
      var k := DetailsIdOf(old(db.details), userId).value;
      r.value == MergeDetails(old(db.details)[k], input) && db.details == old(db.details)[k := r.value]
    ensures userId in old(db.users) && DetailsIdOf(old(db.details), userId).None? ==>
      && r.value == NewDetails(userId, input)
      && old(db.nextId) !in old(db.details)
      && db.details == old(db.details)[old(db.nextId) := r.value]
  {
    if userId !in db.users {
      return Failure(NotFound);
    }
    match DetailsIdOf(db.details, userId) {
      case Some(k) =>
        var merged := MergeDetails(db.details[k], input);
        db.details := db.details[k := merged];
        r := Success(merged);
        assert db.details[k].userId == userId;
      case None =>
        var created := NewDetails(userId, input);
        var k := db.nextId;
        db.details := db.details[k := created];
        db.nextId := db.nextId + 1;
        r := Success(created);
        assert db.details[k].userId == userId;
    }
    assert OneDetailsPerUser(db.details);
  }

  // ---------------------------------------------------------------------
  // Deletion
  // ---------------------------------------------------------------------

  function WithoutUserDetails(details: map<Id, UserDetails>, userId: Id): (r: map<Id, UserDetails>)
    ensures forall k :: k in r <==> k in details && details[k].userId != userId
    ensures forall k :: k in r ==> r[k] == details[k]
  {
    map k | k in details && details[k].userId != userId :: details[k]
  }

  function WithoutUserOrders(orders: map<Id, Order>, userId: Id): (r: map<Id, Order>)
    ensures forall k :: k in r <==> k in orders && orders[k].userId != userId
    ensures forall k :: k in r ==> r[k] == orders[k]
  {
    map k | k in orders && orders[k].userId != userId :: orders[k]
  }

  /** After the delete nothing of the user is left, and every other user
      keeps exactly their details and orders. */
  lemma DeleteTakesOnlyTheUser(details: map<Id, UserDetails>, orders: map<Id, Order>, id: Id, other: Id)
    requires OneDetailsPerUser(details) && other != id
    ensures OneDetailsPerUser(WithoutUserDetails(details, id))
    ensures DetailsOfUser(WithoutUserDetails(details, id), id).None?
    ensures OrdersOfUser(WithoutUserOrders(orders, id), id) == map[]
    ensures DetailsOfUser(WithoutUserDetails(details, id), other) == DetailsOfUser(details, other)
    ensures OrdersOfUser(WithoutUserOrders(orders, id), other) == OrdersOfUser(orders, other)
  {
    var kept := WithoutUserDetails(details, id);
    match DetailsIdOf(details, other) {
      case None =>
      case Some(k) =>
        assert k in kept;
    }
    var mine := OrdersOfUser(WithoutUserOrders(orders, id), id);
    assert mine.Keys == {};
    var theirs := OrdersOfUser(WithoutUserOrders(orders, id), other);
    assert theirs.Keys == OrdersOfUser(orders, other).Keys;
  }

  /** Deletes user `id` together with their details, their orders and those
      orders' items, in one transaction; NotFound for an unknown id. */
  method Delete(db: Db, id: Id) returns (r: Result<bool>)
    requires db.Valid()
    modifies db`users, db`details, db`orders
    ensures db.Valid()
    ensures id !in old(db.users) ==>
      && r == Failure(NotFound)
      && db.users == old(db.users) && db.details == old(db.details) && db.orders == old(db.orders)
    ensures id in old(db.users) ==>
      && r == Success(true)
      && db.users == old(db.users) - {id}
      && db.details == WithoutUserDetails(old(db.details), id)
      && db.orders == WithoutUserOrders(old(db.orders), id)
  {
    if id !in db.users {
      return Failure(NotFound);
    }
    db.details := WithoutUserDetails(db.details, id);
    db.orders := WithoutUserOrders(db.orders, id);
    db.users := db.users - {id};
    r := Success(true);
  }

  // ---------------------------------------------------------------------
  // Password change
  // ---------------------------------------------------------------------

  /** Whether `currentPassword` matches user `id`'s stored hash; NotFound for
      an unknown id. */
  function ValidatePassword(db: Db, id: Id, currentPassword: string, matches: (string, string) -> bool)
    : (r: Result<bool>)
    reads db
    ensures r.Failure? <==> id !in db.users
    ensures r.Failure? ==> r.error == NotFound
    ensures r.Success? ==> r.value == matches(currentPassword, db.users[id].password)
  {
    if id !in db.users then Failure(NotFound)
    else Success(matches(currentPassword, db.users[id].password))
  }

  /** Replaces user `id`'s password by the hash of `newPassword`, provided
      `currentPassword` matches; a mismatch is BadRequest and changes
      nothing. */
  method ChangePassword(db: Db, id: Id, currentPassword: string, newPassword: string,
                        matches: (string, string) -> bool, hash: string -> string)
    returns (r: Result<Account>)
    requires db.Valid()
    modifies db`users
    ensures db.Valid()
    ensures r.Failure? ==> db.users == old(db.users)
    ensures id !in old(db.users) ==> r == Failure(NotFound)
    ensures id in old(db.users) && !matches(currentPassword, old(db.users)[id].password) ==>
      r == Failure(BadRequest)
    ensures id in old(db.users) && matches(currentPassword, old(db.users)[id].password) ==>
      && db.users == old(db.users)[id := old(db.users)[id].(password := hash(newPassword))]
      && r == Success(Account(id, old(db.users)[id].email, old(db.users)[id].name))
  {
    var valid := ValidatePassword(db, id, currentPassword, matches);
    if valid.Failure? {
      return Failure(valid.error);
    }
    if !valid.value {
      return Failure(BadRequest);
    }
    db.users := db.users[id := db.users[id].(password := hash(newPassword))];
    r := Success(Account(id, db.users[id].email, db.users[id].name));
  }
}
