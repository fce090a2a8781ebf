/** The in-memory per-user cart store: a map from user id to an ordered
    sequence of line items, with the five cart routes as pure functions. */
module Cart {
  import opened Common

  /** One cart line as the add route stores it. The body's `productId` may be
      missing; price and quantity are numbers. */
  datatype LineItem = LineItem(
    productId: Option<string>,
    name: Option<string>,
    price: int,
    image: Option<string>,
    quantity: int)

  /** The body of an add request; `quantity` may be missing. */
  datatype AddRequest = AddRequest(
    productId: Option<string>,
    name: Option<string>,
    price: int,
    image: Option<string>,
    quantity: Option<int>)

  /** The `carts` object: one entry per user that has touched the cart. */
  type Carts = map<UserId, seq<LineItem>>

  const CartNotFound := "Cart not found"
  const ItemNotFound := "Item not found in cart"

  /** `carts[userId] || []`: a stored array, even an empty one, is truthy. */
  function CartOf(carts: Carts, user: UserId): seq<LineItem>
  {
    if user in carts then carts[user] else []
  }

  function LineTotal(item: LineItem): int
  {
    item.price * item.quantity
  }

  /** `reduce((sum, item) => sum + price * quantity, 0)`, folded from the left. */
  function Total(items: seq<LineItem>): int
  {
    if |items| == 0 then 0 else Total(items[..|items| - 1]) + LineTotal(items[|items| - 1])
  }

  lemma {:induction false} TotalAppend(a: seq<LineItem>, b: seq<LineItem>)
    ensures Total(a + b) == Total(a) + Total(b)
    decreases |b|
  {
    if |b| == 0 {
      assert a + b == a;
    } else {
      var b' := b[..|b| - 1];
      assert (a + b)[..|a + b| - 1] == a + b';
      assert (a + b)[|a + b| - 1] == b[|b| - 1];
      TotalAppend(a, b');
    }
  }

  /** The total of a one-line cart is that line's price times quantity. */
  lemma TotalSingle(x: LineItem)
    ensures Total([x]) == x.price * x.quantity
  {
    assert [x][..0] == [];
  }

  /** Replacing one line changes the total by exactly that line's difference. */
  lemma {:induction false} TotalUpdate(items: seq<LineItem>, i: nat, x: LineItem)
    requires i < |items|
    ensures Total(items[i := x]) == Total(items) - LineTotal(items[i]) + LineTotal(x)
  {
    var pre, post := items[..i], items[i + 1..];
    assert items == pre + [items[i]] + post;
    assert items[i := x] == pre + [x] + post;
    TotalAppend(pre + [items[i]], post);
    TotalAppend(pre + [x], post);
    TotalAppend(pre, [items[i]]);
    TotalAppend(pre, [x]);
    TotalSingle(items[i]);
    TotalSingle(x);
  }

  /** GET /: the requester's cart, empty when they have none, and its total. */
  method GetCart(carts: Carts, user: UserId) returns (items: seq<LineItem>, total: int)
    ensures user in carts ==> items == carts[user]
    ensures user !in carts ==> items == [] && total == 0
    ensures total == Total(items)
  {
    items := CartOf(carts, user);
    total := 0;
    var i := 0;
    while i < |items|
      invariant 0 <= i <= |items|
      invariant total == Total(items[..i])
    {
      assert items[..i + 1][..i] == items[..i];
      total := total + items[i].price * items[i].quantity;
      i := i + 1;
    }
    assert items[..|items|] == items;
  }

  /** `quantity || 1`: a missing quantity and 0 both count as one; any other
      number, negative ones included, is taken as given. */
  function AddedQuantity(quantity: Option<int>): (n: int)
    ensures n != 0
    ensures quantity.Some? && quantity.value != 0 ==> n == quantity.value
    ensures quantity.None? || quantity.value == 0 ==> n == 1
  {
    if quantity.Some? && quantity.value != 0 then quantity.value else 1
  }

  /** Some line of `items` carries `productId` (strict equality). */
  predicate Contains(items: seq<LineItem>, productId: Option<string>)
  {
    exists j :: 0 <= j < |items| && items[j].productId == productId
  }

  /** `Array.prototype.find` by product id, as an index: the first matching line. */
  function FindIndex(items: seq<LineItem>, productId: Option<string>): (r: Option<nat>)
    ensures r.None? <==> !Contains(items, productId)
    ensures r.Some? ==> r.value < |items| && items[r.value].productId == productId
    ensures r.Some? ==> forall j :: 0 <= j < r.value ==> items[j].productId != productId
  {
    if |items| == 0 then None
    else if items[0].productId == productId then Some(0)
    else
      match FindIndex(items[1..], productId)
      case None =>
        assert forall j :: 1 <= j < |items| ==> items[j].productId == items[1..][j - 1].productId;
        None
      case Some(k) => Some(k + 1)
  }

  /** No two lines of a cart share a product id. */
  predicate Distinct(items: seq<LineItem>)
  {
    forall i, j :: 0 <= i < j < |items| ==> items[i].productId != items[j].productId
  }

  /** Every user's cart has pairwise distinct product ids. */
  predicate WellFormed(carts: Carts)
  {
    forall user :: user in carts ==> Distinct(carts[user])
  }

  function NewLine(request: AddRequest): LineItem
  {
    LineItem(request.productId, request.name, request.price, request.image, AddedQuantity(request.quantity))
  }

  /** POST /: creates the cart if needed; merges into the first line with the
      same product id, otherwise appends a new line at the end. */
  function Add(carts: Carts, user: UserId, request: AddRequest): (r: Carts)
    ensures user in r
    ensures r - {user} == carts - {user}
    ensures !Contains(CartOf(carts, user), request.productId) ==>
      r[user] == CartOf(carts, user) + [NewLine(request)]
    ensures Contains(CartOf(carts, user), request.productId) ==>
      |r[user]| == |CartOf(carts, user)|
    ensures match FindIndex(CartOf(carts, user), request.productId)
      case None => true
      case Some(i) =>
        && r[user][i] == CartOf(carts, user)[i].(quantity := CartOf(carts, user)[i].quantity + AddedQuantity(request.quantity))
        && forall j :: 0 <= j < |r[user]| && j != i ==> r[user][j] == CartOf(carts, user)[j]
  {
    var items := CartOf(carts, user);
    match FindIndex(items, request.productId)
    case Some(i) =>
      carts[user := items[i := items[i].(quantity := items[i].quantity + AddedQuantity(request.quantity))]]
    case None =>
      carts[user := items + [NewLine(request)]]
  }

  /** `filter(item => item.productId !== productId)`. */
  function Without(items: seq<LineItem>, productId: Option<string>): (r: seq<LineItem>)
    ensures |r| <= |items|
    ensures forall x :: x in r <==> x in items && x.productId != productId
    ensures !Contains(r, productId)
    ensures !Contains(items, productId) ==> r == items
  {
    if |items| == 0 then []
    else
      var rest := Without(items[1..], productId);
      assert !Contains(items, productId) ==> !Contains(items[1..], productId) by {
        if Contains(items[1..], productId) {
          var j :| 0 <= j < |items[1..]| && items[1..][j].productId == productId;
          assert items[j + 1].productId == productId;
        }
      }
      if items[0].productId == productId then rest else [items[0]] + rest
  }

  /** PUT /:productId: 404 without a cart or without the line; a quantity of
      zero or less drops the line, any other replaces its quantity. */
  function Update(carts: Carts, user: UserId, productId: string, quantity: int): (r: Result<Carts, HttpError>)
    ensures user !in carts ==> r == Err(NotFound(CartNotFound))
    ensures user in carts && !Contains(carts[user], Some(productId)) ==> r == Err(NotFound(ItemNotFound))
    ensures r.Ok? <==> user in carts && Contains(carts[user], Some(productId))
    ensures r.Ok? ==> user in r.value && r.value - {user} == carts - {user}
    ensures r.Ok? && quantity <= 0 ==>
      && r.value[user] == Without(carts[user], Some(productId))
      && !Contains(r.value[user], Some(productId))
      && forall x :: x in r.value[user] <==> x in carts[user] && x.productId != Some(productId)
    ensures r.Ok? && quantity > 0 ==> |r.value[user]| == |carts[user]|
    ensures r.Ok? && quantity > 0 ==>
      match FindIndex(carts[user], Some(productId))
      case None => false
      case Some(i) =>
        && r.value[user][i] == carts[user][i].(quantity := quantity)
        && forall j :: 0 <= j < |carts[user]| && j != i ==> r.value[user][j] == carts[user][j]
  {
    if user !in carts then Err(NotFound(CartNotFound))
    else
      match FindIndex(carts[user], Some(productId))
      case None => Err(NotFound(ItemNotFound))
      case Some(i) =>
        if quantity <= 0 then Ok(carts[user := Without(carts[user], Some(productId))])
        else Ok(carts[user := carts[user][i := carts[user][i].(quantity := quantity)]])
  }

  /** DELETE /:productId: 404 without a cart, otherwise filters the product out. */
  function Remove(carts: Carts, user: UserId, productId: string): (r: Result<Carts, HttpError>)
    ensures r.Err? <==> user !in carts
    ensures r.Err? ==> r.error == NotFound(CartNotFound)
    ensures r.Ok? ==> user in r.value && r.value - {user} == carts - {user}
    ensures r.Ok? ==> r.value[user] == Without(carts[user], Some(productId))
    ensures r.Ok? ==> !Contains(r.value[user], Some(productId))
    ensures r.Ok? ==> forall x :: x in r.value[user] <==> x in carts[user] && x.productId != Some(productId)
  {
    if user !in carts then Err(NotFound(CartNotFound))
    else Ok(carts[user := Without(carts[user], Some(productId))])
  }

  /** DELETE /: the requester's cart becomes (and now exists as) an empty array. */
  function Clear(carts: Carts, user: UserId): (r: Carts)
    ensures user in r && r[user] == []
    ensures r - {user} == carts - {user}
  {
    carts[user := []]
  }

  // ---- Properties of the cart operations ----

  /** Filtering keeps the surviving lines in their original order. */
  lemma {:induction false} WithoutAppend(a: seq<LineItem>, b: seq<LineItem>, productId: Option<string>)
    ensures Without(a + b, productId) == Without(a, productId) + Without(b, productId)
  {
    if |a| == 0 {
      assert a + b == b;
    } else {
      assert (a + b)[1..] == a[1..] + b;
      WithoutAppend(a[1..], b, productId);
    }
  }

  lemma {:induction false} WithoutDistinct(items: seq<LineItem>, productId: Option<string>)
    requires Distinct(items)
    ensures Distinct(Without(items, productId))
  {
    if |items| > 0 {
      WithoutDistinct(items[1..], productId);
      var rest := Without(items[1..], productId);
      forall x | x in rest
        ensures x.productId != items[0].productId
      {
        var j :| 0 <= j < |items[1..]| && items[1..][j] == x;
        assert items[j + 1] == x;
      }
    }
  }

  /** Removing a product twice is the same as removing it once. */
  lemma RemoveIdempotent(carts: Carts, user: UserId, productId: string)
    requires user in carts
    ensures Remove(carts, user, productId).Ok?
    ensures Remove(Remove(carts, user, productId).value, user, productId) == Remove(carts, user, productId)
  {
    var once := Without(carts[user], Some(productId));
    assert Without(once, Some(productId)) == once;
    assert carts[user := once][user := once] == carts[user := once];
  }

  /** Removing a product the cart does not hold leaves the store as it was. */
  lemma RemoveAbsent(carts: Carts, user: UserId, productId: string)
    requires user in carts && !Contains(carts[user], Some(productId))
    ensures Remove(carts, user, productId) == Ok(carts)
  {
    assert carts[user := carts[user]] == carts;
  }

  /** Adding keeps product ids distinct in every cart. */
  lemma AddPreservesWellFormed(carts: Carts, user: UserId, request: AddRequest)
    requires WellFormed(carts)
    ensures WellFormed(Add(carts, user, request))
  {
    var r := Add(carts, user, request);
    var items := CartOf(carts, user);
    assert Distinct(items);
    forall v | v in r
      ensures Distinct(r[v])
    {
      if v != user {
        assert v in r - {user};
      } else if Contains(items, request.productId) {
        var i := FindIndex(items, request.productId).value;
        assert forall j :: 0 <= j < |items| ==> r[user][j].productId == items[j].productId;
      } else {
        assert forall j :: 0 <= j < |items| ==> items[j].productId != request.productId;
      }
    }
  }

  /** Update keeps product ids distinct in every cart. */
  lemma UpdatePreservesWellFormed(carts: Carts, user: UserId, productId: string, quantity: int)
    requires WellFormed(carts)
    requires Update(carts, user, productId, quantity).Ok?
    ensures WellFormed(Update(carts, user, productId, quantity).value)
  {
    var r := Update(carts, user, productId, quantity).value;
    forall v | v in r
      ensures Distinct(r[v])
    {
      if v != user {
        assert v in r - {user};
      } else if quantity <= 0 {
        WithoutDistinct(carts[user], Some(productId));
      } else {
        assert forall j :: 0 <= j < |carts[user]| ==> r[user][j].productId == carts[user][j].productId;
      }
    }
  }

  /** Remove and clear keep product ids distinct in every cart. */
  lemma RemoveClearPreserveWellFormed(carts: Carts, user: UserId, productId: string)
    requires WellFormed(carts)
    ensures Remove(carts, user, productId).Ok? ==> WellFormed(Remove(carts, user, productId).value)
    ensures WellFormed(Clear(carts, user))
  {
    if user in carts {
      WithoutDistinct(carts[user], Some(productId));
    }
  }

  /** Two adds of a product the cart does not yet hold leave one line for it,
      at the end, carrying the first request's data and the summed quantity. */
  lemma AddTwice(carts: Carts, user: UserId, first: AddRequest, second: AddRequest)
    requires first.productId == second.productId
    requires !Contains(CartOf(carts, user), first.productId)
    ensures Add(Add(carts, user, first), user, second)[user]
         == CartOf(carts, user) + [NewLine(first).(quantity := AddedQuantity(first.quantity) + AddedQuantity(second.quantity))]
  {
    var items := CartOf(carts, user);
    var once := Add(carts, user, first);
    assert once[user] == items + [NewLine(first)];
    var k := |items|;
    assert FindIndex(once[user], first.productId) == Some(k) by {
      assert once[user][k].productId == first.productId;
    }
  }

  /** The cart total after an add grows by the submitted price times the added
      quantity for a new line, and by the stored line's price for a merge. */
  lemma AddTotal(carts: Carts, user: UserId, request: AddRequest)
    ensures !Contains(CartOf(carts, user), request.productId) ==>
      Total(Add(carts, user, request)[user]) == Total(CartOf(carts, user)) + request.price * AddedQuantity(request.quantity)
    ensures Contains(CartOf(carts, user), request.productId) ==>
      Total(Add(carts, user, request)[user])
        == Total(CartOf(carts, user)) + CartOf(carts, user)[FindIndex(CartOf(carts, user), request.productId).value].price * AddedQuantity(request.quantity)
  {
    var items := CartOf(carts, user);
    match FindIndex(items, request.productId)
    case None =>
      TotalAppend(items, [NewLine(request)]);
      TotalSingle(NewLine(request));
    case Some(i) =>
      var x := items[i].(quantity := items[i].quantity + AddedQuantity(request.quantity));
      assert Add(carts, user, request)[user] == items[i := x];
      TotalUpdate(items, i, x);
      assert LineTotal(x) == LineTotal(items[i]) + items[i].price * AddedQuantity(request.quantity) by {
        assert x.price * x.quantity == items[i].price * items[i].quantity + items[i].price * AddedQuantity(request.quantity);
      }
  }

  /** With distinct product ids, a successful positive update gives the line
      exactly the requested quantity (no accumulation) and changes the total
      by price times the difference. */
  lemma UpdateSetsQuantity(carts: Carts, user: UserId, productId: string, quantity: int)
    requires user in carts && Distinct(carts[user]) && quantity > 0
    requires Contains(carts[user], Some(productId))
    ensures Update(carts, user, productId, quantity).Ok?
    ensures forall j :: 0 <= j < |carts[user]| ==>
      Update(carts, user, productId, quantity).value[user][j]
        == if carts[user][j].productId == Some(productId) then carts[user][j].(quantity := quantity) else carts[user][j]
    ensures var i := FindIndex(carts[user], Some(productId)).value;
      Total(Update(carts, user, productId, quantity).value[user])
        == Total(carts[user]) + carts[user][i].price * (quantity - carts[user][i].quantity)
  {
    var i := FindIndex(carts[user], Some(productId)).value;
    var r := Update(carts, user, productId, quantity).value;
    TotalUpdate(carts[user], i, carts[user][i].(quantity := quantity));
    assert carts[user][i].price * quantity - carts[user][i].price * carts[user][i].quantity
      == carts[user][i].price * (quantity - carts[user][i].quantity);
    forall j | 0 <= j < |carts[user]|
      ensures r[user][j] == if carts[user][j].productId == Some(productId) then carts[user][j].(quantity := quantity) else carts[user][j]
    {
      if j != i && carts[user][j].productId == Some(productId) {
        assert false;
      }
    }
  }

  /** A cleared cart still exists: reading it gives no lines and total 0, and
      an update answers "Item not found in cart" rather than "Cart not found". */
  lemma ClearThenUpdate(carts: Carts, user: UserId, productId: string, quantity: int)
    ensures CartOf(Clear(carts, user), user) == [] && Total(CartOf(Clear(carts, user), user)) == 0
    ensures Update(Clear(carts, user), user, productId, quantity) == Err(NotFound(ItemNotFound))
  {
  }
}
