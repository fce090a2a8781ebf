/** The order routes: listing and reading with ownership checks, order
    creation (input checks, server-side total, reconciliation of submitted
    lines against the catalog), the admin status update, and cancellation. */
module Orders {
  import opened Common
  import opened OrderSchema
  import Products

  /** The authenticated caller as the `protect` middleware leaves it. */
  datatype Requester = Requester(id: UserId, role: string)

  predicate IsAdmin(r: Requester)
  {
    r.role == "admin"
  }

  /** The orders collection, keyed by order id. */
  type OrderStore = map<ObjectId, Order>

  /** Every stored order satisfies the schema. */
  predicate StoreValid(store: OrderStore)
  {
    forall id :: id in store ==> ValidOrder(store[id])
  }

  const OrderNotFound := "Order not found"
  const NotAuthorizedView := "Not authorized to view this order"
  const NotAuthorizedCancel := "Not authorized to cancel this order"
  const CartEmpty := "Cart is empty"
  const DeliveryMissing := "Please provide all delivery details"
  const PaymentMissing := "Please select a payment method"
  const InvalidStatus := "Invalid status"
  const CannotCancel := "Order cannot be cancelled at this stage"
  const ServerFailure := "Server error"
  /** The `authorize('admin')` middleware's refusal; that middleware is not
      part of this model, so the text is a stand-in. */
  const AdminOnly := "Admin role required"

  // ---- GET / and GET /:id ----

  /** GET /: admins see every order, anyone else exactly their own. */
  function List(store: OrderStore, requester: Requester): (r: map<ObjectId, Order>)
    ensures forall id :: id in r <==> id in store && (IsAdmin(requester) || store[id].user == requester.id)
    ensures forall id :: id in r ==> r[id] == store[id]
  {
    if IsAdmin(requester) then store
    else map id | id in store && store[id].user == requester.id :: store[id]
  }

  /** GET /:id: an id that cannot be cast to an ObjectId makes `findById`
      throw, which the route answers with 500; a missing order is 404 before
      any ownership check; then a non-admin who does not own it gets 403. */
  function Get(store: OrderStore, requester: Requester, isValidId: string -> bool, id: ObjectId): (r: Result<Order, HttpError>)
    ensures !isValidId(id) ==> r == Err(ServerError(ServerFailure))
    ensures isValidId(id) && id !in store ==> r == Err(NotFound(OrderNotFound))
    ensures isValidId(id) && id in store && !IsAdmin(requester) && store[id].user != requester.id ==> r == Err(Forbidden(NotAuthorizedView))
    ensures r.Ok? <==> isValidId(id) && id in store && (IsAdmin(requester) || store[id].user == requester.id)
    ensures r.Ok? ==> r.value == store[id]
  {
    if !isValidId(id) then Err(ServerError(ServerFailure))
    else if id !in store then Err(NotFound(OrderNotFound))
    else if !IsAdmin(requester) && store[id].user != requester.id then Err(Forbidden(NotAuthorizedView))
    else Ok(store[id])
  }

  /** A non-admin never observes another user's order, through either route. */
  lemma NonAdminSeesOnlyOwnOrders(store: OrderStore, requester: Requester, isValidId: string -> bool, id: ObjectId)
    requires !IsAdmin(requester)
    ensures forall k :: k in List(store, requester) ==> List(store, requester)[k].user == requester.id
    ensures Get(store, requester, isValidId, id).Ok? ==> Get(store, requester, isValidId, id).value.user == requester.id
  {
  }

  // ---- The catalog as the reconciliation step sees it ----

  /** A stored product with its id. */
  datatype Entry = Entry(id: ObjectId, product: Products.Product)

  /** The products collection in natural order, plus the queries that fail
      with an exception (a connectivity or cast error) instead of answering. */
  datatype Catalog = Catalog(entries: seq<Entry>, failingIds: set<ObjectId>, failingNames: set<string>)

  /** The outcome of a lookup: a product, no product, or a thrown error. */
  datatype Lookup = Found(id: ObjectId) | Missing | Failed

  predicate HasId(c: Catalog, id: ObjectId)
  {
    exists k :: 0 <= k < |c.entries| && c.entries[k].id == id
  }

  predicate HasName(c: Catalog, name: string)
  {
    exists k :: 0 <= k < |c.entries| && c.entries[k].product.name == name
  }

  /** `Product.findById`. */
  function FindById(c: Catalog, id: ObjectId): (r: Lookup)
    ensures r == Failed <==> id in c.failingIds
    ensures r.Found? <==> id !in c.failingIds && HasId(c, id)
    ensures r.Found? ==> r.id == id
  {
    if id in c.failingIds then Failed
    else if HasId(c, id) then Found(id)
    else Missing
  }

  /** The index of the first entry with exactly this name. */
  function FirstWithName(entries: seq<Entry>, name: string): (r: Option<nat>)
    ensures r.None? <==> forall k :: 0 <= k < |entries| ==> entries[k].product.name != name
    ensures r.Some? ==> r.value < |entries| && entries[r.value].product.name == name
    ensures r.Some? ==> forall k :: 0 <= k < r.value ==> entries[k].product.name != name
  {
    if |entries| == 0 then None
    else if entries[0].product.name == name then Some(0)
    else
      match FirstWithName(entries[1..], name)
      case None =>
        assert forall k :: 1 <= k < |entries| ==> entries[k] == entries[1..][k - 1];
        None
      case Some(k) => Some(k + 1)
  }

  /** `Product.findOne({ name })`: the first product in natural order whose
      name is exactly `name`. */
  function FindOne(c: Catalog, name: string): (r: Lookup)
    ensures r == Failed <==> name in c.failingNames
    ensures r.Found? <==> name !in c.failingNames && HasName(c, name)
    ensures r.Found? ==> exists k :: (0 <= k < |c.entries| && c.entries[k].id == r.id && c.entries[k].product.name == name
                                      && forall j :: 0 <= j < k ==> c.entries[j].product.name != name)
  {
    if name in c.failingNames then Failed
    else
      match FirstWithName(c.entries, name)
      case None => Missing
      case Some(k) => Found(c.entries[k].id)
  }

  // ---- POST /: reconciliation ----

  /** A line of the submitted cart; every field may be missing. */
  datatype SubmittedItem = SubmittedItem(
    productId: Option<string>,
    name: Option<string>,
    price: Option<int>,
    quantity: Option<int>,
    image: Option<string>)

  /** How an order item's product reference was obtained. */
  datatype Resolution =
    | ById(id: ObjectId)        // the submitted id, confirmed by findById
    | Unverified(id: ObjectId)  // the submitted id, kept because findById threw
    | ByName(id: ObjectId)      // the first product with the submitted name
    | Generated(id: ObjectId)   // a freshly generated id linking to nothing

  /** The submitted id is truthy and has ObjectId format. */
  predicate IdUsable(item: SubmittedItem, isValidId: string -> bool)
  {
    Present(item.productId) && isValidId(item.productId.value)
  }

  /** The id step settles the reference: the product was found, or the lookup
      threw and the converted id was kept. */
  predicate IdStepSettles(c: Catalog, isValidId: string -> bool, item: SubmittedItem)
  {
    IdUsable(item, isValidId) && (item.productId.value in c.failingIds || HasId(c, item.productId.value))
  }

  /** The name step can find a product: the name is truthy, its lookup does
      not throw, and some product carries exactly that name. */
  predicate NameStepFinds(c: Catalog, item: SubmittedItem)
  {
    Present(item.name) && item.name.value !in c.failingNames && HasName(c, item.name.value)
  }

  /** The product reference of one submitted line: by id, then by exact name,
      then a fresh id. A lookup that throws is caught: after findById the
      unverified id stays and the name step is skipped; after findOne the
      fresh id is used. */
  function Resolve(c: Catalog, isValidId: string -> bool, item: SubmittedItem, freshId: ObjectId): (r: Resolution)
    ensures IdStepSettles(c, isValidId, item) && item.productId.value !in c.failingIds ==> r == ById(item.productId.value)
    ensures IdStepSettles(c, isValidId, item) && item.productId.value in c.failingIds ==> r == Unverified(item.productId.value)
    ensures r.ById? ==> HasId(c, r.id) && item.productId == Some(r.id)
    ensures r.ByName? <==> !IdStepSettles(c, isValidId, item) && NameStepFinds(c, item)
    ensures r.ByName? ==> exists k :: (0 <= k < |c.entries| && c.entries[k].id == r.id && Some(c.entries[k].product.name) == item.name
                                       && forall j :: 0 <= j < k ==> Some(c.entries[j].product.name) != item.name)
    ensures r.Generated? <==> !IdStepSettles(c, isValidId, item) && !NameStepFinds(c, item)
    ensures r.Generated? ==> r.id == freshId
  {
    if IdUsable(item, isValidId) && FindById(c, item.productId.value) == Failed then
      Unverified(item.productId.value)
    else if IdUsable(item, isValidId) && FindById(c, item.productId.value).Found? then
      ById(item.productId.value)
    else if Present(item.name) && FindOne(c, item.name.value).Found? then
      ByName(FindOne(c, item.name.value).id)
    else
      Generated(freshId)
  }

  /** A reference resolved by id or by name points into the catalog; with a
      fresh id that is no catalog key, a generated reference never does. */
  lemma ResolvedReferenceLinks(c: Catalog, isValidId: string -> bool, item: SubmittedItem, freshId: ObjectId)
    requires !HasId(c, freshId)
    ensures var r := Resolve(c, isValidId, item, freshId);
      (r.ById? || r.ByName? ==> HasId(c, r.id)) && (r.Generated? ==> !HasId(c, r.id))
  {
  }

  /** The stored item: the resolved reference plus the submitted snapshot. */
  function Snapshot(item: SubmittedItem, product: ObjectId): OrderItem
  {
    OrderItem(Some(product), item.name, item.price, item.quantity, item.image)
  }

  /** `items.map(...)`: one order item per submitted line, in order, each
      resolved on its own with its own fresh id. */
  function Reconcile(c: Catalog, isValidId: string -> bool, items: seq<SubmittedItem>, freshIds: seq<ObjectId>): (r: seq<OrderItem>)
    requires |freshIds| == |items|
    ensures |r| == |items|
    ensures forall i :: 0 <= i < |items| ==>
      && r[i].product == Some(Resolve(c, isValidId, items[i], freshIds[i]).id)
      && r[i].name == items[i].name && r[i].price == items[i].price
      && r[i].quantity == items[i].quantity && r[i].image == items[i].image
  {
    if |items| == 0 then []
    else [Snapshot(items[0], Resolve(c, isValidId, items[0], freshIds[0]).id)] + Reconcile(c, isValidId, items[1..], freshIds[1..])
  }

  /** Reconciliation works line by line: reconciling two carts one after the
      other is reconciling their concatenation. */
  lemma {:induction false} ReconcileAppend(c: Catalog, isValidId: string -> bool,
                                           a: seq<SubmittedItem>, fa: seq<ObjectId>,
                                           b: seq<SubmittedItem>, fb: seq<ObjectId>)
    requires |fa| == |a| && |fb| == |b|
    ensures Reconcile(c, isValidId, a + b, fa + fb) == Reconcile(c, isValidId, a, fa) + Reconcile(c, isValidId, b, fb)
  {
    if |a| == 0 {
      assert a + b == b && fa + fb == fb;
    } else {
      assert (a + b)[1..] == a[1..] + b;
      assert (fa + fb)[1..] == fa[1..] + fb;
      ReconcileAppend(c, isValidId, a[1..], fa[1..], b, fb);
    }
  }

  // ---- POST /: the total ----

  /** The two fields of a line that the total reads. */
  datatype Amount = Amount(price: Option<int>, quantity: Option<int>)

  /** `price * quantity` for one line: not a number when either is missing. */
  function LineAmount(a: Amount): Option<int>
  {
    if a.price.Some? && a.quantity.Some? then Some(a.price.value * a.quantity.value) else None
  }

  /** `reduce((sum, item) => sum + price * quantity, 0)`, folded from the
      left; `None` stands for NaN, which absorbs every later addition. */
  function Sum(lines: seq<Amount>): (r: Option<int>)
    ensures r.Some? <==> forall i :: 0 <= i < |lines| ==> lines[i].price.Some? && lines[i].quantity.Some?
  {
    if |lines| == 0 then Some(0)
    else
      var front := Sum(lines[..|lines| - 1]);
      var last := LineAmount(lines[|lines| - 1]);
      assert forall i :: 0 <= i < |lines| - 1 ==> lines[..|lines| - 1][i] == lines[i];
      if front.Some? && last.Some? then Some(front.value + last.value) else None
  }

  function SubmittedAmounts(items: seq<SubmittedItem>): seq<Amount>
  {
    seq(|items|, i requires 0 <= i < |items| => Amount(items[i].price, items[i].quantity))
  }

  function ItemAmounts(items: seq<OrderItem>): seq<Amount>
  {
    seq(|items|, i requires 0 <= i < |items| => Amount(items[i].price, items[i].quantity))
  }

  /** The server-side total of the submitted lines. */
  function SubmittedTotal(items: seq<SubmittedItem>): (r: Option<int>)
    ensures r.Some? <==> forall i :: 0 <= i < |items| ==> items[i].price.Some? && items[i].quantity.Some?
  {
    var lines := SubmittedAmounts(items);
    assert forall i :: 0 <= i < |items| ==> lines[i] == Amount(items[i].price, items[i].quantity);
    Sum(lines)
  }

  /** The same sum over stored order items. */
  function ItemsTotal(items: seq<OrderItem>): Option<int>
  {
    Sum(ItemAmounts(items))
  }

  /** Reconciliation never changes the total: the amount computed before it
      is the sum over the items that get stored. */
  lemma ReconcileKeepsTotal(c: Catalog, isValidId: string -> bool, items: seq<SubmittedItem>, freshIds: seq<ObjectId>)
    requires |freshIds| == |items|
    ensures ItemsTotal(Reconcile(c, isValidId, items, freshIds)) == SubmittedTotal(items)
  {
    var stored := Reconcile(c, isValidId, items, freshIds);
    assert ItemAmounts(stored) == SubmittedAmounts(items);
  }

  // ---- POST /: create ----

  /** The body of a create request. */
  datatype CreateBody = CreateBody(
    items: Option<seq<SubmittedItem>>,
    deliveryDetails: Option<DeliveryDetails>,
    paymentMethod: Option<string>)

  /** `!items || items.length === 0` fails. */
  predicate HasItems(body: CreateBody)
  {
    body.items.Some? && |body.items.value| > 0
  }

  /** The three checks the route makes itself, before anything is computed. */
  predicate RouteChecksPass(body: CreateBody)
  {
    HasItems(body) && DeliveryComplete(body.deliveryDetails) && Present(body.paymentMethod)
  }

  /** The document handed to `Order.create`. */
  function Draft(requester: Requester, body: CreateBody, c: Catalog, isValidId: string -> bool, freshIds: seq<ObjectId>): Order
    requires body.items.Some? && |freshIds| == |body.items.value|
  {
    Order(requester.id, Reconcile(c, isValidId, body.items.value, freshIds), SubmittedTotal(body.items.value),
          body.deliveryDetails, body.paymentMethod, Some(StatusName(Pending)))
  }

  /** Every submitted line has a quantity of at least 1. */
  predicate QuantitiesValid(items: seq<SubmittedItem>)
  {
    forall i :: 0 <= i < |items| ==> items[i].quantity.Some? && items[i].quantity.value >= 1
  }

  /** Once the route's own checks pass, the draft satisfies the schema exactly
      when the payment method is enumerated, the total is a number of at least
      0, and every quantity is at least 1. */
  lemma DraftValidity(requester: Requester, body: CreateBody, c: Catalog, isValidId: string -> bool, freshIds: seq<ObjectId>)
    requires RouteChecksPass(body) && |freshIds| == |body.items.value|
    ensures WithDefaults(Draft(requester, body, c, isValidId, freshIds)) == Draft(requester, body, c, isValidId, freshIds)
    ensures ValidOrder(Draft(requester, body, c, isValidId, freshIds)) <==>
      && ParsePayment(body.paymentMethod.value).Some?
      && SubmittedTotal(body.items.value).Some? && SubmittedTotal(body.items.value).value >= 0
      && QuantitiesValid(body.items.value)
  {
    var d := Draft(requester, body, c, isValidId, freshIds);
    assert forall i :: 0 <= i < |d.items| ==> d.items[i].quantity == body.items.value[i].quantity;
    assert ParseStatus(StatusName(Pending)).Some?;
  }

  /** POST /. Three 400 checks in order (items, delivery, payment); then the
      total and reconciliation; then `Order.create`, whose validation error or
      duplicate id the route reports as a 500. `freshIds[i]` is the id an
      unresolved line `i` gets and `newId` the new order's id. */
  function Create(store: OrderStore, requester: Requester, body: CreateBody, c: Catalog,
                  isValidId: string -> bool, freshIds: seq<ObjectId>, newId: ObjectId): (r: Result<OrderStore, HttpError>)
    requires body.items.Some? ==> |freshIds| == |body.items.value|
    ensures !HasItems(body) ==> r == Err(Validation(CartEmpty))
    ensures HasItems(body) && !DeliveryComplete(body.deliveryDetails) ==> r == Err(Validation(DeliveryMissing))
    ensures HasItems(body) && DeliveryComplete(body.deliveryDetails) && !Present(body.paymentMethod) ==> r == Err(Validation(PaymentMissing))
    ensures RouteChecksPass(body) && r.Err? ==> r.error == ServerError(ServerFailure)
    ensures r.Ok? <==>
      && RouteChecksPass(body)
      && ParsePayment(body.paymentMethod.value).Some?
      && SubmittedTotal(body.items.value).Some? && SubmittedTotal(body.items.value).value >= 0
      && QuantitiesValid(body.items.value)
      && newId !in store
    ensures r.Ok? ==> newId in r.value && r.value - {newId} == store
    ensures r.Ok? ==>
      var o := r.value[newId];
      && o.user == requester.id
      && o.status == Some("pending")
      && o.totalAmount == SubmittedTotal(body.items.value)
      && o.items == Reconcile(c, isValidId, body.items.value, freshIds)
      && o.deliveryDetails == body.deliveryDetails
      && o.paymentMethod == body.paymentMethod
  {
    if !HasItems(body) then Err(Validation(CartEmpty))
    else if !DeliveryComplete(body.deliveryDetails) then Err(Validation(DeliveryMissing))
    else if !Present(body.paymentMethod) then Err(Validation(PaymentMissing))
    else
      var draft := Draft(requester, body, c, isValidId, freshIds);
      DraftValidity(requester, body, c, isValidId, freshIds);
      match Validate(draft)
      case Err(_) => Err(ServerError(ServerFailure))
      case Ok(order) =>
        if newId in store then Err(ServerError(ServerFailure))
        else Ok(store[newId := order])
  }

  /** A created order is schema-valid and its total is the sum over its own
      stored items. */
  lemma CreatedOrderConsistent(store: OrderStore, requester: Requester, body: CreateBody, c: Catalog,
                               isValidId: string -> bool, freshIds: seq<ObjectId>, newId: ObjectId)
    requires body.items.Some? ==> |freshIds| == |body.items.value|
    requires StoreValid(store)
    requires Create(store, requester, body, c, isValidId, freshIds, newId).Ok?
    ensures StoreValid(Create(store, requester, body, c, isValidId, freshIds, newId).value)
    ensures Create(store, requester, body, c, isValidId, freshIds, newId).value[newId].totalAmount
         == ItemsTotal(Create(store, requester, body, c, isValidId, freshIds, newId).value[newId].items)
  {
    ReconcileKeepsTotal(c, isValidId, body.items.value, freshIds);
    var s := Create(store, requester, body, c, isValidId, freshIds, newId).value;
    forall id | id in s
      ensures ValidOrder(s[id])
    {
      if id != newId {
        assert id in s - {newId};
      }
    }
  }

  /** Negative prices that bring the sum below zero pass the route's own
      checks but make creation fail. */
  lemma NegativeTotalRejected(store: OrderStore, requester: Requester, body: CreateBody, c: Catalog,
                              isValidId: string -> bool, freshIds: seq<ObjectId>, newId: ObjectId)
    requires body.items.Some? ==> |freshIds| == |body.items.value|
    requires RouteChecksPass(body)
    requires SubmittedTotal(body.items.value).Some? && SubmittedTotal(body.items.value).value < 0
    ensures Create(store, requester, body, c, isValidId, freshIds, newId) == Err(ServerError(ServerFailure))
  {
  }

  /** A non-empty payment method outside the enumeration passes the route's
      presence check but fails the schema. */
  lemma UnknownPaymentRejected(store: OrderStore, requester: Requester, body: CreateBody, c: Catalog,
                               isValidId: string -> bool, freshIds: seq<ObjectId>, newId: ObjectId)
    requires body.items.Some? ==> |freshIds| == |body.items.value|
    requires HasItems(body) && DeliveryComplete(body.deliveryDetails)
    requires body.paymentMethod == Some("card")
    ensures Present(body.paymentMethod)
    ensures Create(store, requester, body, c, isValidId, freshIds, newId) == Err(ServerError(ServerFailure))
  {
  }

  /** A line whose id is malformed but whose name matches the catalog: the
      order is placed, totals 310 * 2, links to that product, and is pending. */
  lemma MalformedIdResolvedByName(store: OrderStore, requester: Requester, isValidId: string -> bool,
                                  sugarId: ObjectId, freshId: ObjectId, newId: ObjectId)
    requires !isValidId("bad") && newId !in store
    ensures
      var sugar := Products.Product("Sugar 2kg", 310, Products.Grocery, "sugar.jpg", Some("Fine white sugar"), 50, true);
      var c := Catalog([Entry(sugarId, sugar)], {}, {});
      var body := CreateBody(
        Some([SubmittedItem(Some("bad"), Some("Sugar 2kg"), Some(310), Some(2), None)]),
        Some(DeliveryDetails(Some("A. Customer"), Some("03001234567"), Some("Main Road"))),
        Some("cod"));
      var r := Create(store, requester, body, c, isValidId, [freshId], newId);
      && r.Ok?
      && r.value[newId].totalAmount == Some(620)
      && r.value[newId].items == [OrderItem(Some(sugarId), Some("Sugar 2kg"), Some(310), Some(2), None)]
      && r.value[newId].status == Some("pending")
  {
    var sugar := Products.Product("Sugar 2kg", 310, Products.Grocery, "sugar.jpg", Some("Fine white sugar"), 50, true);
    var c := Catalog([Entry(sugarId, sugar)], {}, {});
    var items := [SubmittedItem(Some("bad"), Some("Sugar 2kg"), Some(310), Some(2), None)];
    assert HasName(c, "Sugar 2kg") by { assert c.entries[0].product.name == "Sugar 2kg"; }
    assert Resolve(c, isValidId, items[0], freshId) == ByName(sugarId);
    assert SubmittedTotal(items) == Some(620) by {
      assert items[..0] == [];
    }
    assert ParsePayment("cod") == Some(Cod);
  }

  // ---- PUT /:id/status and DELETE /:id ----

  /** PUT /:id/status: admins only; the status must be one of the six
      (checked before the lookup); then an id that cannot be cast makes
      `findByIdAndUpdate` throw (500), and a missing order is 404. Any valid
      status is accepted from any current status. */
  function UpdateStatus(store: OrderStore, requester: Requester, isValidId: string -> bool, id: ObjectId, status: Option<string>): (r: Result<OrderStore, HttpError>)
    ensures !IsAdmin(requester) ==> r == Err(Forbidden(AdminOnly))
    ensures IsAdmin(requester) && (status.None? || ParseStatus(status.value).None?) ==> r == Err(Validation(InvalidStatus))
    ensures IsAdmin(requester) && status.Some? && ParseStatus(status.value).Some? && !isValidId(id) ==> r == Err(ServerError(ServerFailure))
    ensures IsAdmin(requester) && status.Some? && ParseStatus(status.value).Some? && isValidId(id) && id !in store ==> r == Err(NotFound(OrderNotFound))
    ensures r.Ok? <==> IsAdmin(requester) && status.Some? && ParseStatus(status.value).Some? && isValidId(id) && id in store
    ensures r.Ok? ==> id in r.value && r.value - {id} == store - {id}
    ensures r.Ok? ==> r.value[id].status == status && r.value[id].(status := store[id].status) == store[id]
  {
    if !IsAdmin(requester) then Err(Forbidden(AdminOnly))
    else if status.None? || ParseStatus(status.value).None? then Err(Validation(InvalidStatus))
    else if !isValidId(id) then Err(ServerError(ServerFailure))
    else if id !in store then Err(NotFound(OrderNotFound))
    else Ok(store[id := store[id].(status := status)])
  }

  /** Only pending and confirmed orders may be cancelled. */
  predicate Cancellable(o: Order)
  {
    o.status == Some(StatusName(Pending)) || o.status == Some(StatusName(Confirmed))
  }

  /** DELETE /:id: 500 for an id that cannot be cast, 404, then 403 for a
      non-admin non-owner, then 400 unless the order is pending or
      confirmed; only then does it become cancelled. */
  function Cancel(store: OrderStore, requester: Requester, isValidId: string -> bool, id: ObjectId): (r: Result<OrderStore, HttpError>)
    ensures !isValidId(id) ==> r == Err(ServerError(ServerFailure))
    ensures isValidId(id) && id !in store ==> r == Err(NotFound(OrderNotFound))
    ensures isValidId(id) && id in store && !IsAdmin(requester) && store[id].user != requester.id ==> r == Err(Forbidden(NotAuthorizedCancel))
    ensures isValidId(id) && id in store && (IsAdmin(requester) || store[id].user == requester.id) && !Cancellable(store[id])
      ==> r == Err(Validation(CannotCancel))
    ensures r.Ok? <==> isValidId(id) && id in store && (IsAdmin(requester) || store[id].user == requester.id) && Cancellable(store[id])
    ensures r.Ok? ==> id in r.value && r.value - {id} == store - {id}
    ensures r.Ok? ==> r.value[id].status == Some("cancelled") && r.value[id].(status := store[id].status) == store[id]
  {
    if !isValidId(id) then Err(ServerError(ServerFailure))
    else if id !in store then Err(NotFound(OrderNotFound))
    else if !IsAdmin(requester) && store[id].user != requester.id then Err(Forbidden(NotAuthorizedCancel))
    else if !Cancellable(store[id]) then Err(Validation(CannotCancel))
    else Ok(store[id := store[id].(status := Some(StatusName(Cancelled)))])
  }

  /** Cancellation cannot be repeated: a cancelled order is no longer cancellable. */
  lemma CancelTwiceFails(store: OrderStore, requester: Requester, isValidId: string -> bool, id: ObjectId)
    requires Cancel(store, requester, isValidId, id).Ok?
    ensures Cancel(Cancel(store, requester, isValidId, id).value, requester, isValidId, id) == Err(Validation(CannotCancel))
  {
  }

  /** The status update ignores the lifecycle: an admin may move an order from
      any status to any status, even out of cancelled or delivered, where
      cancelling is refused. */
  lemma AnyStatusFromAnyStatus(store: OrderStore, admin: Requester, isValidId: string -> bool, id: ObjectId, target: Status)
    requires IsAdmin(admin) && id in store && isValidId(id)
    ensures UpdateStatus(store, admin, isValidId, id, Some(StatusName(target))).Ok?
    ensures UpdateStatus(store, admin, isValidId, id, Some(StatusName(target))).value[id].status == Some(StatusName(target))
    ensures store[id].status == Some("delivered") ==> Cancel(store, admin, isValidId, id) == Err(Validation(CannotCancel))
  {
    ParseStatusName(target);
  }

  /** Status updates and cancellation keep every stored order schema-valid. */
  lemma LifecyclePreservesValidity(store: OrderStore, requester: Requester, isValidId: string -> bool, id: ObjectId, status: Option<string>)
    requires StoreValid(store)
    ensures UpdateStatus(store, requester, isValidId, id, status).Ok? ==> StoreValid(UpdateStatus(store, requester, isValidId, id, status).value)
    ensures Cancel(store, requester, isValidId, id).Ok? ==> StoreValid(Cancel(store, requester, isValidId, id).value)
  {
    if UpdateStatus(store, requester, isValidId, id, status).Ok? {
      var s := UpdateStatus(store, requester, isValidId, id, status).value;
      forall k | k in s
        ensures ValidOrder(s[k])
      {
        if k != id { assert k in s - {id}; }
      }
    }
    if Cancel(store, requester, isValidId, id).Ok? {
      var s := Cancel(store, requester, isValidId, id).value;
      forall k | k in s
        ensures ValidOrder(s[k])
      {
        if k != id { assert k in s - {id}; }
      }
    }
  }
}
