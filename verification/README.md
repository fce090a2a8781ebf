# FreshMart backend: cart, orders and schemas in Dafny

This project models the decision logic of the FreshMart shop backend, an
Express/Mongoose service. It covers three parts:

- **The per-user cart** (`routes/cart.js`). This is an in-memory object from
  user id to an array of line items. Adding merges lines by `productId`. An
  update sets the quantity, or drops the line when the quantity is ≤ 0.
  Remove filters the product out, clear empties the cart, and the read route
  sums price × quantity.
- **Order creation** (`routes/orders.js`). The route checks its input in a
  fixed order and computes the total on the server from the submitted lines.
  It then reconciles each line's product reference against the catalog: by
  id, then by exact name, then with a freshly generated id.
- **The order lifecycle and access rules** (`routes/orders.js`). These are
  the list/get ownership checks, the admin status update and cancellation.
  The Mongoose schemas behind them are modelled too (`models/Order.js`,
  `models/Product.js`): required fields, minimum values, enumerations,
  defaults, and the trim/lowercase setters.

Every route is a pure function over immutable values:

- the cart store is a `map<UserId, seq<LineItem>>`;
- the orders collection is a `map<ObjectId, Order>`;
- the catalog is a sequence of products in natural order, plus the queries
  that throw;
- each outcome is a `Result` whose error says which HTTP status the route
  sends: `Validation` (400), `Forbidden` (403), `NotFound` (404) or
  `ServerError` (500).

Files, one module each:

- `common.dfy` holds `Option`, `Result` and `HttpError`, plus `Present`, which
  is JavaScript truthiness of a string field. Mongoose's `required` on a
  String accepts exactly the same values.
- `cart.dfy` (`Cart`) models `routes/cart.js`.
- `products.dfy` (`Products`) models `models/Product.js`.
- `order_schema.dfy` (`OrderSchema`) models `models/Order.js`.
- `orders.dfy` (`Orders`) models `routes/orders.js`.

Inputs that come from outside the code are parameters:

- **The requester** is a `Requester(id, role)`.
- **`mongoose.Types.ObjectId.isValid`** is a function parameter `isValidId`.
- **Generated ids** are arguments. `freshIds[i]` is the id given to
  unresolved line `i`, and `newId` is the new order's `_id`.
- **Catalog exceptions** are the sets `failingIds` and `failingNames`. They
  list the `findById` and `findOne` queries that throw.

## Behaviour kept as the code has it

Six behaviours of the code are easy to misread. The model follows the code
in each:

- **Removing an item when the user has no cart** answers 404 "Cart not
  found" (`routes/cart.js:123-128`). It is not a no-op.
- **An order line that matches no product** gets a freshly generated ObjectId
  as its `product` (`routes/orders.js:145-148`). The reference is never null,
  even though the schema allows null.
- **When `findById` throws**, the converted but unverified id is kept and the
  name lookup is skipped (`routes/orders.js:117-134`).
- **The route checks only that `paymentMethod` is truthy**
  (`routes/orders.js:98`). An unknown method such as `"card"` is rejected
  only by the schema, during `Order.create`, so the client gets a 500.
- **An order id that is not a well-formed ObjectId** answers 500, not 404,
  in the read, status-update and cancel routes. The cast error thrown by the
  lookup reaches the routes' catch blocks (`routes/orders.js:68-73`,
  `231-236`, `277-282`).
- **The admin status update accepts any of the six statuses from any status.**
  This includes moving an order out of `cancelled` or `delivered`. Only
  cancellation is restricted to `pending`/`confirmed`.

## Model

| member | source | states |
|---|---|---|
| Cart.GetCart | routes/cart.js:13-22 | A user with no cart reads an empty cart with total 0. Otherwise the stored lines are returned, and the total is the left-to-right sum of price × quantity, accumulated by a loop. |
| Cart.TotalAppend | routes/cart.js:21 | The cart total is additive over concatenation. |
| Cart.TotalUpdate | routes/cart.js:21 | Replacing one line changes the total by exactly the difference of that line's price × quantity. |
| Cart.AddedQuantity | routes/cart.js:46-54 | `quantity \|\| 1` never yields 0. A missing quantity and a quantity of 0 both count as 1, and any other number, negative ones included, is kept. |
| Cart.FindIndex | routes/cart.js:44 | `find` by product id returns the first line carrying that id. It returns nothing exactly when no line carries it. |
| Cart.Add | routes/cart.js:40-56 | Other users' carts are untouched. A new product id appends one line at the end with quantity `q \|\| 1`. A known id raises the first matching line's quantity by `q \|\| 1`, keeping the length, the order and every other line. |
| Cart.Without | routes/cart.js:130 | The filter keeps exactly the lines whose product id differs. It leaves none with the removed id, and an absent id leaves the cart unchanged. |
| Cart.WithoutAppend | routes/cart.js:130 | The filter keeps the surviving lines in their original order. |
| Cart.Update | routes/cart.js:81-100 | With no cart, the answer is 404 "Cart not found". With no matching line, it is 404 "Item not found in cart". A quantity ≤ 0 removes every line with that id and keeps the other lines in their order (the same filter as remove). Any other quantity replaces (not adds to) the first matching line's quantity, and other users and lines are unchanged. |
| Cart.Remove | routes/cart.js:123-130 | With no cart, the answer is 404. Otherwise the product is filtered out of that user's cart only: the result is `Without` of the stored lines, so the surviving lines keep their order. |
| Cart.Clear | routes/cart.js:152 | The user's cart becomes an existing empty array, and other users are untouched. |
| Cart.RemoveIdempotent | routes/cart.js:130 | Removing a product twice equals removing it once. |
| Cart.RemoveAbsent | routes/cart.js:130 | Removing a product the cart does not hold leaves the store unchanged. |
| Cart.AddPreservesWellFormed | routes/cart.js:44-56 | Add keeps product ids pairwise distinct in every cart. |
| Cart.WithoutDistinct | routes/cart.js:97 | Filtering keeps product ids distinct. |
| Cart.UpdatePreservesWellFormed | routes/cart.js:96-100 | Update keeps product ids pairwise distinct in every cart. |
| Cart.RemoveClearPreserveWellFormed | routes/cart.js:123-152 | Remove and clear keep product ids pairwise distinct in every cart. |
| Cart.AddTwice | routes/cart.js:44-55 | Two adds of a new product id yield a single line at the end. It carries the first request's name, price and image, with quantity `(q1 \|\| 1) + (q2 \|\| 1)`. |
| Cart.AddTotal | routes/cart.js:44-55 | After an add, the total grows by the submitted price × added quantity for a new line. For a merge it grows by the stored line's price × added quantity. |
| Cart.UpdateSetsQuantity | routes/cart.js:88-100 | In a cart with distinct ids, a positive update gives the matching line exactly the requested quantity and changes nothing else. The total changes by that line's price times the difference between the new and the old quantity. |
| Cart.ClearThenUpdate | routes/cart.js:149-152 | A cleared cart reads as empty with total 0. An update on it answers "Item not found in cart", not "Cart not found". |
| Products.ParseCategory | models/Product.js:14-19 | A category string is accepted exactly when it is one of the six enumerated names. |
| Products.SkipSpaces | models/Product.js:4-8 | The index reached from `i` is the first non-white-space position at or after `i`, or the end; everything skipped is white space. |
| Products.SkipSpacesBack | models/Product.js:4-8 | The index reached back from `j` is just past the last non-white-space position before `j`, or 0; everything skipped is white space. |
| Products.TrimStart | models/Product.js:4-8 | Leading white space is dropped: the result is the longest suffix not starting with a space. |
| Products.TrimEnd | models/Product.js:4-8 | Trailing white space is dropped: the result is the longest prefix not ending with a space. |
| Products.Trim | models/Product.js:4-8 | The trimmed name is the infix of the input between a run of leading and a run of trailing white space. It neither starts nor ends with white space, so those runs are the longest ones, and an already-trimmed string is returned unchanged. |
| Products.TrimIdempotent | models/Product.js:4-8 | Trimming is idempotent. |
| Products.TrimStripsPadding | models/Product.js:4-8 | Padding a trimmed name with a space on each side and trimming gives the name back. |
| Products.Lower | models/Product.js:14-19 | The lower-cased string keeps its length, maps every letter through the ASCII lower-case map, and contains no upper-case letter. |
| Products.LowerIdempotent | models/Product.js:14-19 | Lower-casing is idempotent. |
| Products.LowerFixed | models/Product.js:14-19 | A string without upper-case letters is its own lower-case form. |
| Products.CategoryNameLower | models/Product.js:14-19 | Every enumerated category name survives lower-casing and parses back to its category. |
| Products.Normalize | models/Product.js:4-36 | Casting replaces a given name by its trimmed form, the description likewise, and a given category by its lower-cased form. It defaults a missing stock to 0 and a missing `isActive` to true, keeps given ones, and leaves price and image alone. |
| Products.NormalizeIdempotent | models/Product.js:4-36 | Casting twice is casting once. |
| Products.Violations | models/Product.js:4-36 | A path fails exactly when its rule fails. The name is missing or blank after trimming. The price is missing or negative. The category is missing or not one of the six after lower-casing. The image is missing or empty. The stock is negative. |
| Products.Validate | models/Product.js:4-36 | Validation succeeds exactly when no path fails, and otherwise reports every failing path. The stored product is valid, and its fields are the cast input with defaults applied. |
| Products.StoredProductRevalidates | models/Product.js:4-36 | Every valid stored product validates again to itself. |
| Products.CapitalisedCategoryAccepted | models/Product.js:14-19 | `"Grocery"` validates to category `grocery`, with stock defaulting to 0 and the product active. |
| OrderSchema.ParseStatus | models/Order.js:50-54 | A status string is accepted exactly when it names one of the six statuses. |
| OrderSchema.ParseStatusName | models/Order.js:50-54 | Every status name parses back to its status. |
| OrderSchema.ParsePayment | models/Order.js:45-49 | A payment method is accepted exactly when it is `cod`, `easypaisa`, `jazzcash` or `bank`. |
| OrderSchema.WithDefaults | models/Order.js:50-54 | A missing status becomes `pending`, and nothing else changes. |
| OrderSchema.Violations | models/Order.js:3-54 | The reported paths are as follows. `items.i.quantity` is reported exactly for the lines whose quantity is missing or below 1. `totalAmount` is reported exactly when it is missing or negative. `paymentMethod` is reported when it is missing or not enumerated, and `status` when it is not enumerated. Each of `deliveryDetails.fullName`, `.phone` and `.address` is reported exactly when that field (or the whole object) is missing or empty. |
| OrderSchema.Validate | models/Order.js:3-57 | Validation succeeds exactly when the defaulted document satisfies every schema rule, with the product reference optional. Otherwise it reports every failing path. The stored document is the input with only the default applied: a missing status is stored as `pending`, and a supplied status is kept as given. |
| OrderSchema.StoredOrderRevalidates | models/Order.js:3-57 | A valid stored order passes validation unchanged. |
| Orders.List | routes/orders.js:12-24 | Admins get every order. Anyone else gets exactly the orders whose user is the requester. |
| Orders.Get | routes/orders.js:43-73 | An id that cannot be cast to an ObjectId makes `findById` throw, which is a 500. A missing order is 404 before any ownership check. A non-admin non-owner is 403. Otherwise the stored order is returned. |
| Orders.NonAdminSeesOnlyOwnOrders | routes/orders.js:12-62 | A non-admin never obtains another user's order through list or get. |
| Orders.FindById | routes/orders.js:120 | `findById` throws exactly for the failing ids. It finds exactly the ids present in the catalog. |
| Orders.FirstWithName | routes/orders.js:136 | The index found is that of the first entry with exactly that name. Nothing is found exactly when no entry has it. |
| Orders.FindOne | routes/orders.js:136 | `findOne({name})` throws exactly for the failing names. It otherwise finds an entry exactly when some product has that exact name. It returns the id of the first such product in natural order, since names are not unique. |
| Orders.Resolve | routes/orders.js:110-148 | A truthy, well-formed id that `findById` finds is used, and the name step is skipped. If `findById` throws, the unverified id is kept and the name step is skipped. Otherwise a truthy name with a found product gives the id of the first product in natural order with that name. Otherwise the fresh id is used. |
| Orders.ResolvedReferenceLinks | routes/orders.js:145-148 | References resolved by id or name point into the catalog. A generated reference never does when the fresh id is not a catalog key. |
| Orders.Reconcile | routes/orders.js:110-157 | There is one output item per submitted line, in order. Each item carries its own resolved id (never null) and the line's name, price, quantity and image verbatim. |
| Orders.ReconcileAppend | routes/orders.js:110-157 | Reconciling a concatenation is the concatenation of the reconciliations: lines are resolved independently. |
| Orders.SubmittedTotal | routes/orders.js:106 | The server-side sum is a number exactly when every line has a price and a quantity. |
| Orders.Sum | routes/orders.js:106 | The left fold of price × quantity over (price, quantity) pairs, shared by the submitted lines and the stored items, is a number exactly when every pair has both a price and a quantity; one missing value makes the whole sum NaN. |
| Orders.ReconcileKeepsTotal | routes/orders.js:106-157 | The total computed before reconciliation equals the sum over the stored order items. |
| Orders.Create | routes/orders.js:82-186 | The checks run in order: "Cart is empty", then the delivery error, then the payment error. Once they pass, any failure is a 500. Creation succeeds exactly when the payment method is enumerated, the total is a number ≥ 0, every quantity is ≥ 1 and the id is new. The stored order belongs to the requester and is `pending`. Its total is the submitted sum, and its items are the reconciled lines. |
| Orders.DraftValidity | routes/orders.js:160-167 | Once the route checks pass, the document handed to `Order.create` is schema-valid exactly when the payment method is enumerated, the total is a number ≥ 0 and every quantity is ≥ 1. |
| Orders.CreatedOrderConsistent | routes/orders.js:106-167 | A created order keeps every stored order schema-valid. Its total equals the sum over its stored items. |
| Orders.NegativeTotalRejected | models/Order.js:26-30 | Negative prices that bring the sum below 0 pass the route checks but make creation fail with a 500. |
| Orders.UnknownPaymentRejected | models/Order.js:45-49 | A non-empty unknown payment method passes the route's presence check, and creation then fails with a 500. |
| Orders.MalformedIdResolvedByName | routes/orders.js:114-148 | A line with a malformed id and the name "Sugar 2kg" is placed. The order totals 620, links to that product and is `pending`. |
| Orders.UpdateStatus | routes/orders.js:200-236 | A non-admin is refused. An invalid status is 400 before the lookup. Then an id that cannot be cast makes `findByIdAndUpdate` throw (500), and a missing order is 404. Otherwise only that order's status changes, to the requested value. |
| Orders.Cancel | routes/orders.js:243-282 | Checks run in order: 500 for an id that cannot be cast, 404, then 403 for a non-admin non-owner, then 400 unless the order is `pending` or `confirmed`. Only then does the status become `cancelled`, with nothing else changed. |
| Orders.CancelTwiceFails | routes/orders.js:262-270 | A second cancellation of the same order is refused with 400. |
| Orders.AnyStatusFromAnyStatus | routes/orders.js:204-224 | An admin can move any existing order to any of the six statuses. Cancelling a delivered order is refused. |
| Orders.LifecyclePreservesValidity | routes/orders.js:212-271 | Status updates and cancellations keep every stored order schema-valid. |

## Left out

- HTTP rendering is not modelled: the JSON envelope, status codes as
  numbers, `res.json`. A `Result` with an `HttpError` variant stands for
  them.
- Server bootstrap (`server.js`) and the seeding script (`scripts/seed.js`)
  are I/O. One seeded product, "Sugar 2kg" at 310, is used as example data.
- The `protect` and `authorize` middleware (`middleware/auth.js`) are not
  part of this model. The requester is an input.
- Orders.UpdateStatus: models `authorize('admin')` as a `Forbidden` check
  first. Its message text is a stand-in.
- Concurrency is not modelled: `Promise.all` across lines and concurrent
  requests on the shared `carts` object. Lines are resolved one at a time
  and independently, and each request is one function application.
- Orders.List: returns the visible orders as a map. The `createdAt` sort
  (newest first) and `populate` are not modelled.
- Orders.Get: the ownership check reads the populated user. A deleted user
  makes that access throw (a 500), and this is not modelled.
- Timestamps (`timestamps: true`) and logging (`console.warn`,
  `console.error`) are not modelled.
- Prices and quantities are integers, so JavaScript floating-point
  arithmetic is not modelled. In order lines, a missing price or quantity
  makes the sum NaN, which is modelled as `None` and rejected when the
  total is cast. Strings, `null` and other non-numbers in numeric fields
  are not modelled.
- Cart.Update: the body's quantity is always a number. A missing quantity,
  which the code would store as `undefined`, is not modelled.
- Cart.GetCart: the cart's prices and quantities are numbers, so a NaN
  total is not modelled.
- ObjectId format validity is the parameter `isValidId`. Converting a
  string to an ObjectId is the identity on its string form, so hex case
  normalisation is ignored. Id generation is the arguments `freshIds` and
  `newId`.
- Orders.List: a failing `Order.find` answers 500 (`routes/orders.js:31-37`).
  The orders collection is a total map that never fails, so this is not
  modelled.
- Orders.Get: a failing `findById` on a well-formed id answers 500
  (`routes/orders.js:68-74`). Only the cast failure of a malformed id is
  modelled.
- Orders.Create: a failing `Order.create` for a reason other than schema
  validation, such as a lost connection, answers 500
  (`routes/orders.js:186-194`). "Succeeds exactly when" is stated for a
  store that never fails. Failing catalog queries are modelled; failing
  order writes are not.
- Orders.UpdateStatus: a failing `findByIdAndUpdate` on a well-formed id
  answers 500 (`routes/orders.js:231-237`), and this is not modelled.
- Orders.Cancel: a failing `findById` or `save` on a well-formed id answers
  500 (`routes/orders.js:277-283`), and this is not modelled.
- Orders.FindOne: compares the submitted name exactly with stored names.
  Mongoose's casting of query filters through schema setters, such as trim
  on `name`, is not modelled.
- Products.Lower: lower-cases ASCII letters only. `String.prototype.toLowerCase`
  maps all of Unicode.
- The product routes (catalog management) are not modelled. Only the
  Product schema is, and the reconciliation reads products through
  `Catalog`.
- Orders.Cancel: does not re-run schema validation on `save()`.
  `OrderSchema.StoredOrderRevalidates` shows that a valid stored order
  passes it unchanged.
