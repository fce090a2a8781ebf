/** The Order schema: embedded order items with an optional product
    reference, the required delivery details, the payment-method and status
    enumerations, the default status, and the minimum values. */
module OrderSchema {
  import opened Common

  datatype Status = Pending | Confirmed | Processing | Shipped | Delivered | Cancelled

  function StatusName(s: Status): string
  {
    match s
    case Pending => "pending"
    case Confirmed => "confirmed"
    case Processing => "processing"
    case Shipped => "shipped"
    case Delivered => "delivered"
    case Cancelled => "cancelled"
  }

  /** The status enumeration: a string is a status exactly when it names one. */
  function ParseStatus(s: string): (r: Option<Status>)
    ensures r.Some? ==> StatusName(r.value) == s
    ensures r.None? ==> forall st: Status :: StatusName(st) != s
  {
    if s == "pending" then Some(Pending)
    else if s == "confirmed" then Some(Confirmed)
    else if s == "processing" then Some(Processing)
    else if s == "shipped" then Some(Shipped)
    else if s == "delivered" then Some(Delivered)
    else if s == "cancelled" then Some(Cancelled)
    else None
  }

  lemma ParseStatusName(st: Status)
    ensures ParseStatus(StatusName(st)) == Some(st)
  {
  }

  datatype PaymentMethod = Cod | Easypaisa | Jazzcash | Bank

  function PaymentName(m: PaymentMethod): string
  {
    match m
    case Cod => "cod"
    case Easypaisa => "easypaisa"
    case Jazzcash => "jazzcash"
    case Bank => "bank"
  }

  /** The payment-method enumeration. */
  function ParsePayment(s: string): (r: Option<PaymentMethod>)
    ensures r.Some? ==> PaymentName(r.value) == s
    ensures r.None? ==> forall m: PaymentMethod :: PaymentName(m) != s
  {
    if s == "cod" then Some(Cod)
    else if s == "easypaisa" then Some(Easypaisa)
    else if s == "jazzcash" then Some(Jazzcash)
    else if s == "bank" then Some(Bank)
    else None
  }

  datatype DeliveryDetails = DeliveryDetails(
    fullName: Option<string>,
    phone: Option<string>,
    address: Option<string>)

  /** An embedded order item. `product` is an optional reference; name,
      price and image are snapshots taken when the order was placed. */
  datatype OrderItem = OrderItem(
    product: Option<ObjectId>,
    name: Option<string>,
    price: Option<int>,
    quantity: Option<int>,
    image: Option<string>)

  /** An order document. `totalAmount` is `None` when the computed sum was
      not a number (a line without price or quantity). */
  datatype Order = Order(
    user: UserId,
    items: seq<OrderItem>,
    totalAmount: Option<int>,
    deliveryDetails: Option<DeliveryDetails>,
    paymentMethod: Option<string>,
    status: Option<string>)

  datatype OrderField = TotalAmountField | FullNameField | PhoneField | AddressField | PaymentField | StatusField

  /** A path a validation error names: `items.<i>.quantity` or a top-level field. */
  datatype Path = ItemQuantity(index: nat) | Field(field: OrderField)

  /** Quantity is required and at least 1; the product reference may be absent. */
  predicate ValidItem(item: OrderItem)
  {
    item.quantity.Some? && item.quantity.value >= 1
  }

  /** All three delivery fields are required (non-empty strings). */
  predicate DeliveryComplete(d: Option<DeliveryDetails>)
  {
    d.Some? && Present(d.value.fullName) && Present(d.value.phone) && Present(d.value.address)
  }

  /** The invariant of every stored order. */
  predicate ValidOrder(o: Order)
  {
    && (forall i :: 0 <= i < |o.items| ==> ValidItem(o.items[i]))
    && o.totalAmount.Some? && o.totalAmount.value >= 0
    && DeliveryComplete(o.deliveryDetails)
    && o.paymentMethod.Some? && ParsePayment(o.paymentMethod.value).Some?
    && o.status.Some? && ParseStatus(o.status.value).Some?
  }

  /** Casting fills a missing status with the default. */
  function WithDefaults(o: Order): (r: Order)
    ensures r.status.Some?
    ensures o.status.None? ==> r.status == Some(StatusName(Pending))
    ensures o.status.Some? ==> r == o
    ensures r.(status := o.status) == o
  {
    if o.status.None? then o.(status := Some(StatusName(Pending))) else o
  }

  predicate FieldFails(o: Order, f: OrderField)
  {
    match f
    case TotalAmountField => o.totalAmount.None? || o.totalAmount.value < 0
    case FullNameField => o.deliveryDetails.None? || !Present(o.deliveryDetails.value.fullName)
    case PhoneField => o.deliveryDetails.None? || !Present(o.deliveryDetails.value.phone)
    case AddressField => o.deliveryDetails.None? || !Present(o.deliveryDetails.value.address)
    case PaymentField => o.paymentMethod.None? || ParsePayment(o.paymentMethod.value).None?
    case StatusField => o.status.None? || ParseStatus(o.status.value).None?
  }

  /** Every path whose validator rejects the cast document. */
  function Violations(o: Order): (r: set<Path>)
    ensures forall i: nat :: ItemQuantity(i) in r <==> i < |o.items| && !ValidItem(o.items[i])
    ensures Field(TotalAmountField) in r <==> o.totalAmount.None? || o.totalAmount.value < 0
    ensures Field(PaymentField) in r <==> o.paymentMethod.None? || ParsePayment(o.paymentMethod.value).None?
    ensures Field(StatusField) in r <==> o.status.Some? && ParseStatus(o.status.value).None?
    ensures Field(FullNameField) in r <==> o.deliveryDetails.None? || !Present(o.deliveryDetails.value.fullName)
    ensures Field(PhoneField) in r <==> o.deliveryDetails.None? || !Present(o.deliveryDetails.value.phone)
    ensures Field(AddressField) in r <==> o.deliveryDetails.None? || !Present(o.deliveryDetails.value.address)
  {
    var d := WithDefaults(o);
    (set i | 0 <= i < |d.items| && !ValidItem(d.items[i]) :: ItemQuantity(i))
    + (set f: OrderField | FieldFails(d, f) :: Field(f))
  }

  /** `Order.create`'s validation step: the document with defaults applied,
      or every failing path. */
  function Validate(o: Order): (r: Result<Order, set<Path>>)
    ensures r.Ok? <==> ValidOrder(WithDefaults(o))
    ensures r.Ok? <==> Violations(o) == {}
    ensures r.Err? ==> r.error == Violations(o)
    ensures r.Ok? ==> ValidOrder(r.value) && r.value.(status := o.status) == o
    ensures r.Ok? ==> r.value == WithDefaults(o)
    ensures r.Ok? && o.status.None? ==> r.value.status == Some("pending")
  {
    var d := WithDefaults(o);
    assert ValidOrder(d) <==> Violations(o) == {} by {
      if !ValidOrder(d) {
        if exists i :: 0 <= i < |d.items| && !ValidItem(d.items[i]) {
          var i :| 0 <= i < |d.items| && !ValidItem(d.items[i]);
          assert ItemQuantity(i) in Violations(o);
        } else if d.totalAmount.None? || d.totalAmount.value < 0 {
          assert Field(TotalAmountField) in Violations(o);
        } else if !DeliveryComplete(d.deliveryDetails) {
          assert Field(FullNameField) in Violations(o) || Field(PhoneField) in Violations(o) || Field(AddressField) in Violations(o);
        } else if d.paymentMethod.None? || ParsePayment(d.paymentMethod.value).None? {
          assert Field(PaymentField) in Violations(o);
        } else {
          assert Field(StatusField) in Violations(o);
        }
      }
    }
    if Violations(o) == {} then Ok(d) else Err(Violations(o))
  }

  /** A stored order passes validation again unchanged (the save in the
      cancel route re-runs the validators). */
  lemma StoredOrderRevalidates(o: Order)
    requires ValidOrder(o)
    ensures Validate(o) == Ok(o)
  {
  }
}
