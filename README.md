# Order ledger, cart and account store — a Dafny model

This project models the business logic of an e-commerce backend: the order
ledger and its status machine, the cart store, the computed cart prices, and
the user account store. The relational store behind them is modelled in
memory as one class, `Store.Db`, holding one map per table from generated
id to row. Every operation that writes runs as one transaction: an operation
that fails leaves the store as it found it.

- `Results` holds the error kinds (`NotFound`, `Conflict`, `BadRequest`,
  `Validation`, `Internal`) and the `Option`/`Result` wrappers.
- `Catalog` holds sizes, prices and products, and `FindPrice`, the "first
  price entry for this size" lookup that the order ledger and the cart
  resolver share.
- `Orders` states the ledger's rules as functions over the product table:
  - `PriceItems` checks each requested line and snapshots its price;
  - `Total` sums price × quantity;
  - `Withdraw` and `Restock` are the stock writes, and `QuantityOf` gives
    their closed form;
  - `Transition` is the stock effect of a status change.

  The lemmas prove the ledger's invariants: stock never goes negative, an
  order takes out exactly what it ordered, and cancel followed by un-cancel
  restores stock.
- `Store` holds the entity records, the `Db` class and its invariant
  `Valid()`. That invariant says: ids are below the id counter; emails are
  unique; there is at most one details record and one cart per user; stock
  is non-negative; every stored order has one line per product, each line
  is for a known product with a quantity of at least one, and the order
  carries the total of its lines.
- `OrderService`, `CartService` and `UserService` hold the operations as
  methods over `Db`. Each method preserves `Valid()` and states its new
  state in terms of the functions above. `CartPricing` holds the resolver's
  computed fields as pure functions.

Money is held in integer cents. The outcome of a confirmation email is a
boolean parameter. Password hashing and comparison are function parameters:
`hash` and `matches`.

## Model

| member | source | states |
|---|---|---|
| `Catalog.FindPrice` | src/order/order.service.ts:53 | the result is the value of the first price entry for the size, and it is absent exactly when no entry has that size |
| `Orders.PriceItemAsWritten` | src/order/order.service.ts:52-55 | the checks as the code makes them: a line is accepted exactly when its product exists, has a price for the size and has stock ≥ quantity, whatever the sign of the quantity. An accepted line snapshots the price. An unknown product is NotFound and every other rejection is Conflict |
| `Orders.PriceItemAgreesOnPositiveQuantity` | src/order/order.service.ts:52-55 | for a quantity of at least 1, the corrected check gives exactly the result of the checks as written |
| `Orders.PriceItem` | src/order/order.service.ts:52-55 | a line is accepted exactly when it is orderable: quantity ≥ 1, known product, a price for the size, and stock ≥ quantity. An accepted line copies product, quantity and size and snapshots the price. Quantity < 1 fails with Validation, an unknown product with NotFound, and everything else with Conflict |
| `Orders.PriceItems` | src/order/order.service.ts:45-64 | succeeds exactly when every line is orderable, giving one snapshotted line per requested line; otherwise fails with the error of the first rejected line |
| `Orders.Total` | src/order/order.service.ts:66-70 | no lines total 0, and one line totals its price × quantity |
| `Orders.TotalAppend` | src/order/order.service.ts:66-70 | the total of two runs of lines is the sum of their totals, so the fold is the plain sum of price × quantity |
| `Orders.TotalNonNegative` | src/order/order.service.ts:66-70 | lines with non-negative prices and quantities have a non-negative total |
| `Orders.Withdraw` | src/order/order.service.ts:96-103 | the product ids are kept, and each product's stock drops by the total quantity the lines hold of it (`QuantityOf`) |
| `Orders.Restock` | src/order/order.service.ts:147-155 | the product ids are kept, and each product's stock rises by the total quantity the lines hold of it |
| `Orders.QuantityOfDistinct` | src/order/order.service.ts:96-103 | with one line per product, the quantity held of a product is the quantity of its line |
| `Orders.WithdrawCoveredKeepsStock` | src/order/order.service.ts:96-103 | withdrawing lines that stock covers, one per product, leaves every stock ≥ 0 |
| `Orders.RestockKeepsStock` | src/order/order.service.ts:147-155 | putting back positive quantities leaves every stock ≥ 0 |
| `Orders.RestockUndoesWithdraw` | src/order/order.service.ts:147-167 | restocking after withdrawing the same lines, or withdrawing after restocking them, gives back the same product table |
| `Orders.PricedItemsWellFormed` | src/order/order.service.ts:80-85 | the lines of an accepted request are one per product, for known products, with quantity ≥ 1, and covered by stock |
| `Orders.CreateOrderTakesStock` | src/order/order.service.ts:96-103 | after creation, each ordered product's stock is its old stock minus its quantity, and ≥ 0 |
| `Orders.CreateOrderKeepsOtherStock` | src/order/order.service.ts:96-103 | products not named in the order keep their row unchanged |
| `Orders.Transition` | src/order/order.service.ts:147-168 | fails, with Conflict, exactly when a cancelled order is reopened and stock does not cover some line. A move that neither enters nor leaves `Cancelled` leaves stock alone |
| `Orders.CancelReturnsStock` | src/order/order.service.ts:147-155 | cancelling raises each ordered product's stock by its line's quantity |
| `Orders.ReopenTakesStock` | src/order/order.service.ts:156-167 | reopening a cancelled order that stock covers lowers each ordered product's stock by its line's quantity |
| `Orders.TransitionKeepsStock` | src/order/order.service.ts:147-167 | no status change of a well-formed order drives a stock below zero |
| `Orders.CancelRoundTrip` | src/order/order.service.ts:147-167 | cancel then move to any other status succeeds and restores exactly the stock from before the cancel |
| `Orders.NegativeQuantityDrivesStockNegative` | src/order/order.service.ts:55 | with the checks as written, a quantity of -3 is accepted at stock 0, raises stock to 3 and gives a total of -3000. After 3 more units are sold, cancelling that order leaves stock at -3 |
| `OrderService.GetOrderById` | src/order/order.service.ts:215-228 | returns the stored order for a known id, nothing otherwise |
| `OrderService.CreateOrder` | src/order/order.service.ts:21-129 | succeeds exactly when the user and the details record exist and every line is accepted. It fails with NotFound, changing nothing, when the user or the details record is missing. Fails with the first rejected line's error, changing nothing, when a line is rejected. Otherwise it stores a new `Pending` order with the snapshotted lines, their `Total` and `emailSent` equal to whether the email went out; stock becomes `Withdraw` of the lines; the order is returned as created. `Valid()` is kept |
| `OrderService.CheckLines` | src/order/order.service.ts:45-64 | the loop's result equals `PriceItems` of the request |
| `OrderService.PlaceOrder` | src/order/order.service.ts:72-125 | stores the order under a fresh id, withdraws the lines' stock and records the email outcome, keeping `Valid()` |
| `OrderService.TakeStock` | src/order/order.service.ts:96-103 | the stale-read writes `stock := read − quantity`, one per line, give `Withdraw` of the lines |
| `OrderService.ReturnStock` | src/order/order.service.ts:148-155 | the stale-read writes `stock := read + quantity` give `Restock` of the lines |
| `OrderService.TakeStockIfCovered` | src/order/order.service.ts:156-167 | reports whether stock covers every line. If it does, stock becomes `Withdraw` of the lines; if not, every write is rolled back |
| `OrderService.UpdateOrderStatus` | src/order/order.service.ts:131-198 | an unknown id is NotFound and changes nothing. If `Transition` fails, the result is Conflict and the order stays as it was, stock unchanged. Otherwise stock becomes the `Transition` result and only the order's status is set. `Valid()` is kept |
| `CartService.ItemsOfCart` | src/cart/cart.service.ts:12 | exactly the cart-item rows whose `cartId` is the cart, unchanged |
| `CartService.ItemsOfCartAdd` | src/cart/cart.service.ts:28-36 | adding a row grows only its own cart's items, by that row |
| `CartService.GetCartByUserId` | src/cart/cart.service.ts:9-14 | nothing exactly when the user has no cart; otherwise the user's unique cart with its items |
| `CartService.AddToCart` | src/cart/cart.service.ts:16-39 | reuses the user's cart, or creates one with `isOrdered = false` when there is none, so the user still has exactly one cart. It adds exactly one new row with the given product, quantity and size and returns it. The table grows by one; nothing is merged |
| `CartService.RemoveCartItem` | src/cart/cart.service.ts:41-49 | an unknown id is NotFound and changes nothing. Otherwise exactly that row is removed and the result is success |
| `CartPricing.ItemPrice` | src/cart/cart.resolver.ts:62-68 | the value of the first price entry for the item's size; an error exactly when there is none |
| `CartPricing.Subtotal` | src/cart/cart.resolver.ts:71-77 | price × quantity, failing exactly when the price fails |
| `CartPricing.Accumulate` | src/cart/cart.resolver.ts:51-55 | items without a price for their size leave the running sum unchanged; with `AccumulateIsSubtotalSum`, the fold adds exactly the subtotals of the priced items |
| `CartPricing.CartTotal` | src/cart/cart.resolver.ts:48-56 | a cart without items totals 0 |
| `CartPricing.AccumulateIsSubtotalSum` | src/cart/cart.resolver.ts:51-55 | the left fold from any start equals the start plus the sum of the subtotals of the priced items |
| `CartPricing.TotalIsSumOfPricedSubtotals` | src/cart/cart.resolver.ts:51-55 | the total is the sum of the subtotals of the items that have a price; the others add nothing |
| `CartPricing.TotalIsSumOfSubtotals` | src/cart/cart.resolver.ts:51-77 | when every item has a price, the total is the sum of the items' subtotals |
| `Store.UserIdByEmail` | src/user/user.service.ts:77-80 | the lookup through the unique email column: nothing exactly when no user holds the email, otherwise the one user who holds it |
| `UserService.FindOne` | src/user/user.service.ts:12-30 | NotFound exactly for an unknown id; otherwise the user with their details and `OrdersOfUser`, exactly the orders they placed |
| `UserService.FindUserWithCart` | src/user/user.service.ts:32-54 | NotFound exactly for an unknown id; otherwise the user with their details and their cart |
| `UserService.FindByEmail` | src/user/user.service.ts:76-87 | NotFound exactly when no user holds the email; otherwise the user holding it, with details |
| `UserService.OwnEmailIsFree` | src/user/user.service.ts:98-105 | one's own current email never counts as held by another user |
| `UserService.ApplyUpdate` | src/user/user.service.ts:107-110 | a supplied non-empty password is stored as its hash and a supplied empty one as it is; supplied name, email and admin flag overwrite; missing fields are kept |
| `UserService.Update` | src/user/user.service.ts:89-124 | an unknown id is NotFound. A non-empty email held by another user is BadRequest. It succeeds exactly when the resulting email is free, and then writes `ApplyUpdate` of the row. A failure changes nothing, and `Valid()` is kept |
| `UserService.MergeDetails` | src/user/user.service.ts:136-146 | the owner is kept. A field supplied with a truthy value (a non-empty string, a non-zero pincode) takes that value, and no other field changes |
| `UserService.NewDetails` | src/user/user.service.ts:147-157 | the record belongs to the user. Each string field is the supplied truthy value, and is empty exactly when none was supplied. The pincode is the supplied one, or 0 |
| `UserService.FalsyUpdateKeepsDetails` | src/user/user.service.ts:136-146 | empty strings and a pincode of 0 change nothing in an existing record |
| `UserService.MergeDetailsIdempotent` | src/user/user.service.ts:136-146 | applying a details update twice is applying it once |
| `UserService.NewDetailsIsMergeIntoBlank` | src/user/user.service.ts:147-157 | creating with `''`/`0` defaults is merging the input into a blank record |
| `UserService.UpdateUserDetails` | src/user/user.service.ts:126-159 | an unknown user is NotFound. An existing record is merged with only the truthy fields. Otherwise a record is created with defaults. Either way the user then has exactly that one record |
| `UserService.WithoutUserDetails` | src/user/user.service.ts:171-173 | exactly the details rows of other users, unchanged |
| `UserService.WithoutUserOrders` | src/user/user.service.ts:174-183 | exactly the orders, with their items, of other users, unchanged |
| `UserService.DeleteTakesOnlyTheUser` | src/user/user.service.ts:166-187 | after the delete, the user has no details and no orders left; every other user keeps exactly their details and orders |
| `UserService.Delete` | src/user/user.service.ts:161-190 | an unknown id is NotFound and changes nothing. Otherwise the user, their details and their orders with items are removed together, and `Valid()` is kept |
| `UserService.ValidatePassword` | src/user/user.service.ts:192-202 | NotFound exactly for an unknown id; otherwise whether the password matches the stored hash |
| `UserService.ChangePassword` | src/user/user.service.ts:204-225 | an unknown id is NotFound; a password that does not match is BadRequest; both change nothing. Otherwise only the password changes, to the hash of the new one, and the result is the user's id, email and name without the password |

## Left out

- Concurrency. The per-line reads and writes run one after another here, while the code runs them in parallel. Stock writes are modelled as written, stale reads included: `stock := value read before − quantity`.
- OrderService.CreateOrder: requires distinct product ids in one request. With duplicates, the code's parallel stale-read writes leave the outcome to whichever write lands last.
- The error of a rejected request is that of its first rejected line in input order. The code reports whichever line's check fails first in time.
- Floating point. Prices and totals are integer cents, so the two-decimal rounding of the total is the identity here.
- Email content and dispatch. The confirmation email is a boolean outcome. The status-update email for `shipped`/`delivered` has no effect on the store and is left out.
- bcrypt and JWT. Hashing and comparison are parameters, and bcrypt's salting is not modelled.
- Tracking numbers, dates, `createdAt`/`updatedAt` (so the password-change result carries no `updatedAt`), and the `getOrders` listing ordered by creation date.
- The database schema is not part of this model. Of its constraints, the model keeps only these: unique email, one details record per user, one cart per user, and order lines pointing at existing products. A cart whose user or product does not exist is not refused.
- Deleting a user leaves their cart as it is: the delete does not touch carts, and the schema's referential actions are unknown.
- Order items are stored inside their order rather than in a table of their own.
- Row ids are drawn from one counter shared by all tables instead of generated strings.
- `UserService.Update`: the caller always sets the input's `id` to the target id, so it is not part of the modelled input.
- The cart mutations and PubSub publishing in the cart resolver. They call service methods that the cart service does not define.
- Product catalog management, image upload, authentication, guards, middleware and configuration.
- OrderStatus: the generated enum is not part of this model. The model uses pending, processing, shipped, delivered and cancelled.

## Findings

| source | as written | input that shows it | evidently intended | confidence | as-written member | corrected member |
|---|---|---|---|---|---|---|
| src/order/dto/order.dto.ts:12-14, src/order/order.service.ts:55 | an order line's quantity is validated only as a number, so the stock check `stock < quantity` accepts any quantity ≤ 0 | at stock 0, order −3: the order is accepted with total −3000 and stock becomes 3. After 3 units are sold, cancelling the first order sets stock to −3 | a quantity of at least 1, as the cart input requires (`@Min(1)`, src/cart/dto/cart.dto.ts:17-20) | high (not executed) | `Orders.PriceItemAsWritten` (shown by `Orders.NegativeQuantityDrivesStockNegative`) | `Orders.PriceItem` (with `Orders.TransitionKeepsStock`) |
