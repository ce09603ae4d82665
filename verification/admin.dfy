/** The admin dashboard's decision rules: identifying orders, reading their
    totals, advancing their status, and cascading a product's removal or
    visibility change onto the shoppers' cart lines. */
module Admin {
  import opened Common
  import opened Records
  import opened Workflow

  /** Why an admin action wrote nothing. */
  datatype Failure =
    | MissingId         // the identifier argument is empty
    | Cancelled         // the confirmation dialog was dismissed
    | ProductNotFound
    | OrderNotFound
    | NotWatchOrder     // found by document key, but not a purchase
    | NotServiceOrder   // found by `id`, but neither 'store' nor 'pickup'

  /* ---------------------------------------------------------------------
     Identifying orders
     --------------------------------------------------------------------- */

  /** `detectOrderTypeById`: guesses an order's type from the shape of its
      identifier; `None` stands for a non-string argument and for the
      `null` result. The third test repeats conditions the second already
      consumed, so its 'pickup' answer is never produced. */
  function DetectOrderTypeById(id: Option<string>): (r: Option<string>)
    ensures r.None? <==> id.None?
    ensures id.Some? ==>
      (r == Some("purchase") <==> StartsWith(id.value, "ORD-") || StartsWith(id.value, "PK"))
    ensures id.Some? ==>
      (r == Some("store") <==>
        !StartsWith(id.value, "ORD-") && !StartsWith(id.value, "PK")
        && (StartsWith(id.value, "SV") || |id.value| > 10))
  {
    match id
    case None => None
    case Some(s) =>
      if StartsWith(s, "ORD-") || StartsWith(s, "PK") then Some("purchase")
      else if StartsWith(s, "SV") || |s| > 10 then Some("store")
      else if StartsWith(s, "PK") || |s| > 10 then Some("pickup")
      else Some("service")
  }

  /** The sniffer answers one of three types and never 'pickup'. */
  lemma DetectNeverPickup(id: Option<string>)
    ensures DetectOrderTypeById(id) != Some("pickup")
    ensures id.Some? ==> DetectOrderTypeById(id).value in {"purchase", "store", "service"}
  {
  }

  /** A repair pickup's identifier ("PK" followed by the clock) is taken
      for a watch purchase. */
  lemma PickupIdSniffsAsPurchase(millis: nat)
    ensures DetectOrderTypeById(Some("PK" + NatToString(millis))) == Some("purchase")
  {
    assert ("PK" + NatToString(millis))[..2] == "PK";
  }

  /** `getOrderDisplayId` applied to `{id: key, ...data}`: a purchase's
      non-empty order number, else the `id` field a service order carries,
      else the document key. */
  function DisplayId(key: string, o: Order): (d: string)
    ensures o.Purchase? && o.orderNumber != "" ==> d == o.orderNumber
    ensures o.Service? && o.id.Some? ==> d == o.id.value
    ensures (o.Purchase? && o.orderNumber == "") || (o.Service? && o.id.None?) ==> d == key
  {
    match o
    case Purchase(_, _, _, _, _, _, number, _, _, _, _, _, _, _) =>
      if number != "" then number else key
    case Service(_, id, _, _, _, _, _, _, _, _) =>
      id.GetOr(key)
  }

  /** The status shown for an order: its own, or the first of its list
      when the field is missing. */
  function EffectiveStatus(o: Order): (s: string)
    ensures s != ""
    ensures o.status != "" ==> s == o.status
    ensures o.status == "" ==> s == StatusConfig(o.TypeName())[0].key
  {
    if o.status != "" then o.status
    else if o.Purchase? then "pending"
    else "order_placed"
  }

  /* ---------------------------------------------------------------------
     Totals
     --------------------------------------------------------------------- */

  /** `getOrderTotal`: a purchase's `totalAmount`, falling back to its
      `subtotal`; a service order's numeric `price`. A missing field, or a
      price stored as text, counts as 0. */
  function OrderTotal(o: Order): (t: real)
    ensures o.Purchase? && o.totalAmount.Some? ==> t == o.totalAmount.value
    ensures o.Purchase? && o.totalAmount.None? && o.subtotal.Some? ==> t == o.subtotal.value
    ensures o.Purchase? && o.totalAmount.None? && o.subtotal.None? ==> t == 0.0
    ensures o.Service? ==> t == (if o.price.Some? && o.price.value.Fixed? then o.price.value.amount as real else 0.0)
  {
    match o
    case Purchase(_, _, _, _, _, _, _, _, subtotal, _, total, _, _, _) =>
      if total.Some? then total.value else subtotal.GetOr(0.0)
    case Service(_, _, _, _, _, _, _, _, _, price) =>
      match price
      case Some(Fixed(n)) => n as real
      case _ => 0.0
  }

  /** The dashboard's total sales: the sum of every order's total. */
  function Sales(os: seq<Order>): real {
    if |os| == 0 then 0.0 else OrderTotal(os[0]) + Sales(os[1..])
  }

  /** The orders of one `type`, in their order. */
  function OfType(os: seq<Order>, t: string): (r: seq<Order>)
    ensures |r| <= |os|
    ensures forall i :: 0 <= i < |r| ==> r[i].TypeName() == t
  {
    if |os| == 0 then []
    else (if os[0].TypeName() == t then [os[0]] else []) + OfType(os[1..], t)
  }

  /** Peeling the first order off a list of orders of one type. */
  lemma SalesOfTypeCons(os: seq<Order>, u: string)
    requires |os| > 0
    ensures Sales(OfType(os, u))
         == (if os[0].TypeName() == u then OrderTotal(os[0]) else 0.0) + Sales(OfType(os[1..], u))
  {
    var rest := OfType(os[1..], u);
    if os[0].TypeName() == u {
      assert ([os[0]] + rest)[1..] == rest;
    } else {
      assert [] + rest == rest;
    }
  }

  /** The total splits into the watch sales, the repair sales, the store
      sales, and the sales of orders whose type is missing. */
  lemma {:induction false} SalesByType(os: seq<Order>)
    ensures Sales(os) == Sales(OfType(os, "purchase")) + Sales(OfType(os, "pickup"))
                       + Sales(OfType(os, "store")) + Sales(OfType(os, ""))
  {
    if |os| > 0 {
      SalesByType(os[1..]);
      SalesOfTypeCons(os, "purchase");
      SalesOfTypeCons(os, "pickup");
      SalesOfTypeCons(os, "store");
      SalesOfTypeCons(os, "");
    }
  }

  /* ---------------------------------------------------------------------
     Product cascades onto cart lines
     --------------------------------------------------------------------- */

  /** What hiding a product writes to each of its cart lines. The line's
      own `hidden` field is left alone. */
  function HideLine(l: CartLine): CartLine {
    l.(outOfStock := true, originalQuantity := Some(l.quantity), quantity := 0)
  }

  /** The quantity a line is restored to: the remembered quantity, or 1
      when none is remembered or it is 0 (`originalQuantity || 1`). */
  function RestoredQuantity(l: CartLine): (q: nat)
    ensures q >= 1
    ensures l.originalQuantity.Some? && l.originalQuantity.value > 0 ==> q == l.originalQuantity.value
  {
    match l.originalQuantity
    case Some(q) => if q > 0 then q else 1
    case None => 1
  }

  /** What showing a product writes to each of its out-of-stock cart lines. */
  function ShowLine(l: CartLine): CartLine {
    l.(outOfStock := false, quantity := RestoredQuantity(l))
  }

  /** `toggleProductVisibility(productId, hidden)`. */
  function ToggleProductVisibility(db: Db, productId: string, hidden: bool): (r: Result<Db, Failure>)
    ensures productId == "" ==> r == Err(MissingId)
    ensures productId != "" && productId !in db.watches.rows ==> r == Err(ProductNotFound)
    ensures r.Ok? <==> productId != "" && productId in db.watches.rows
    ensures r.Ok? ==> r.value.watches.rows == db.watches.rows[productId := db.watches.rows[productId].(hidden := hidden)]
    ensures r.Ok? ==> r.value.orders == db.orders && r.value.addresses == db.addresses
    ensures r.Ok? ==> r.value.cart.rows.Keys == db.cart.rows.Keys
  {
    if productId == "" then Err(MissingId)
    else if productId !in db.watches.rows then Err(ProductNotFound)
    else
      var product := db.watches.rows[productId];
      var cart :=
        if hidden then UpdateWhere(db.cart, (l: CartLine) => l.watchId == productId, HideLine)
        else UpdateWhere(db.cart, (l: CartLine) => l.watchId == productId && l.outOfStock, ShowLine);
      Ok(db.(watches := Put(db.watches, productId, product.(hidden := hidden)), cart := cart))
  }

  /** Hiding a product zeroes every one of its cart lines, remembering the
      quantity it had; lines of other products are untouched. */
  lemma HideCascade(db: Db, productId: string, key: string)
    requires WellFormed(db.cart)
    requires ToggleProductVisibility(db, productId, true).Ok?
    requires key in db.cart.rows
    ensures var before := db.cart.rows[key];
            var after := ToggleProductVisibility(db, productId, true).value.cart.rows[key];
            if before.watchId == productId then
              after.outOfStock && after.quantity == 0
              && after.originalQuantity == Some(before.quantity)
              && after.hidden == before.hidden
            else after == before
  {
  }

  /** Showing a product brings back exactly its out-of-stock lines. */
  lemma ShowCascade(db: Db, productId: string, key: string)
    requires WellFormed(db.cart)
    requires ToggleProductVisibility(db, productId, false).Ok?
    requires key in db.cart.rows
    ensures var before := db.cart.rows[key];
            var after := ToggleProductVisibility(db, productId, false).value.cart.rows[key];
            if before.watchId == productId && before.outOfStock then
              !after.outOfStock && after.quantity >= 1
              && after.quantity == RestoredQuantity(before)
              && after.originalQuantity == before.originalQuantity
            else after == before
  {
  }

  /** Hiding and then showing a product restores each of its lines to the
      quantity it had, or to 1 when it had none; apart from the remembered
      quantity and the cleared flag nothing else about the line changes. */
  lemma ShowAfterHide(db: Db, productId: string, key: string)
    requires WellFormed(db.cart)
    requires ToggleProductVisibility(db, productId, true).Ok?
    requires key in db.cart.rows
    ensures ToggleProductVisibility(ToggleProductVisibility(db, productId, true).value, productId, false).Ok?
    ensures var before := db.cart.rows[key];
            var after := ToggleProductVisibility(ToggleProductVisibility(db, productId, true).value, productId, false).value.cart.rows[key];
            after == before.(outOfStock := before.outOfStock && before.watchId != productId,
                             quantity := if before.watchId == productId && before.quantity == 0 then 1 else before.quantity,
                             originalQuantity := if before.watchId == productId then Some(before.quantity) else before.originalQuantity)
  {
    var mid := ToggleProductVisibility(db, productId, true).value;
    HideCascade(db, productId, key);
    ShowCascade(mid, productId, key);
  }

  /** `deleteProduct(productId)`, `confirmed` being the answer to its
      confirmation dialog: the product and every cart line that refers to
      it are removed. */
  function DeleteProduct(db: Db, productId: string, confirmed: bool): (r: Result<Db, Failure>)
    ensures productId == "" ==> r == Err(MissingId)
    ensures productId != "" && !confirmed ==> r == Err(Cancelled)
    ensures r.Ok? <==> productId != "" && confirmed && productId in db.watches.rows
    ensures r.Ok? ==> r.value.watches.rows == db.watches.rows - {productId}
    ensures r.Ok? ==> r.value.orders == db.orders && r.value.addresses == db.addresses
  {
    if productId == "" then Err(MissingId)
    else if !confirmed then Err(Cancelled)
    else if productId !in db.watches.rows then Err(ProductNotFound)
    else Ok(db.(watches := Delete(db.watches, productId),
                cart := DeleteWhere(db.cart, (l: CartLine) => l.watchId == productId)))
  }

  /** After a deletion no cart line refers to the product, and every line
      of another product survives unchanged. */
  lemma DeleteProductCascade(db: Db, productId: string)
    requires WellFormed(db.cart)
    requires DeleteProduct(db, productId, true).Ok?
    ensures var cart := DeleteProduct(db, productId, true).value.cart.rows;
            (forall k :: k in cart ==> cart[k].watchId != productId)
            && (forall k :: k in db.cart.rows && db.cart.rows[k].watchId != productId ==>
                  k in cart && cart[k] == db.cart.rows[k])
  {
  }

  /* ---------------------------------------------------------------------
     Status updates
     --------------------------------------------------------------------- */

  /** The order-number lookup `updateWatchOrderStatus` tries first: only
      an 'ORD-' identifier is looked up, and the first match is taken. */
  function NumberHit(orders: Table<Order>, identifier: string): (r: Option<string>)
    ensures r.Some? ==> StartsWith(identifier, "ORD-") && r.value in orders.rows && HasOrderNumber(orders.rows[r.value], identifier)
    ensures !StartsWith(identifier, "ORD-") ==> r.None?
  {
    if StartsWith(identifier, "ORD-") then First(orders, ByOrderNumber(identifier)) else None
  }

  /** The document an `updateWatchOrderStatus(identifier)` call acts on:
      an 'ORD-' identifier is first looked up as an order number; failing
      that it is taken as a document key, which must hold a purchase. */
  function ResolveWatchOrder(orders: Table<Order>, identifier: string): (r: Result<string, Failure>)
    ensures r == Err(MissingId) <==> identifier == ""
    ensures r.Ok? ==> r.value in orders.rows && orders.rows[r.value].Purchase?
    ensures identifier != "" && NumberHit(orders, identifier).Some? ==> r == Ok(NumberHit(orders, identifier).value)
    ensures identifier != "" && NumberHit(orders, identifier).None? ==>
      (r.Ok? <==> identifier in orders.rows && orders.rows[identifier].Purchase?)
      && (r.Ok? ==> r.value == identifier)
    ensures identifier != "" && identifier in orders.rows && orders.rows[identifier].Purchase? ==> r.Ok?
    ensures identifier != "" && StartsWith(identifier, "ORD-") && WellFormed(orders)
            && (exists k :: k in orders.rows && HasOrderNumber(orders.rows[k], identifier)) ==>
      r.Ok? && HasOrderNumber(orders.rows[r.value], identifier)
    ensures r == Err(NotWatchOrder) <==>
      identifier != "" && NumberHit(orders, identifier).None?
      && identifier in orders.rows && !orders.rows[identifier].Purchase?
    ensures r == Err(OrderNotFound) <==>
      identifier != "" && NumberHit(orders, identifier).None? && identifier !in orders.rows
  {
    if identifier == "" then Err(MissingId)
    else
      var byNumber := NumberHit(orders, identifier);
      if byNumber.Some? then Ok(byNumber.value)
      else if identifier !in orders.rows then Err(OrderNotFound)
      else if !orders.rows[identifier].Purchase? then Err(NotWatchOrder)
      else Ok(identifier)
  }

  /** `updateWatchOrderStatus(identifier)` at time `now`: advances the
      resolved purchase along the watch list (a missing status counting as
      'pending') and writes nothing but `status` and `updatedAt`. */
  function UpdateWatchOrderStatus(orders: Table<Order>, identifier: string, now: int): (r: Result<Table<Order>, Failure>)
    ensures r.Ok? <==> ResolveWatchOrder(orders, identifier).Ok?
    ensures r.Err? ==> r.error == ResolveWatchOrder(orders, identifier).error
    ensures r.Ok? ==>
      var k := ResolveWatchOrder(orders, identifier).value;
      var o := orders.rows[k];
      && k in r.value.rows
      && r.value.rows == orders.rows[k := o.WithStatus(r.value.rows[k].status, now)]
      && r.value.rows[k].status == NextStatus(EffectiveStatus(o), "purchase")
      && r.value.rows[k].status in Keys(WatchOrderStatuses)
    ensures WellFormed(orders) && r.Ok? ==> WellFormed(r.value)
  {
    match ResolveWatchOrder(orders, identifier)
    case Err(e) => Err(e)
    case Ok(k) =>
      var o := orders.rows[k];
      Ok(Put(orders, k, o.WithStatus(NextStatus(EffectiveStatus(o), "purchase"), now)))
  }

  /** `updateServiceOrderStatus(orderId)` at time `now`: the first order
      whose `id` field is `orderId`, if it is a pickup or store visit, is
      advanced along the service list (a missing status counting as
      'order_placed'). */
  function UpdateServiceOrderStatus(orders: Table<Order>, orderId: string, now: int): (r: Result<Table<Order>, Failure>)
    ensures r == Err(MissingId) <==> orderId == ""
    ensures orderId != "" ==> (r == Err(OrderNotFound) <==> First(orders, ByIdField(orderId)).None?)
    ensures r == Err(OrderNotFound) ==> WellFormed(orders) ==> forall k :: k in orders.rows ==> !HasIdField(orders.rows[k], orderId)
    ensures orderId != "" && First(orders, ByIdField(orderId)).Some? ==>
      var k := First(orders, ByIdField(orderId)).value;
      var o := orders.rows[k];
      && o.Service? && o.id == Some(orderId)
      && (r == Err(NotServiceOrder) <==> o.kind == Untyped)
      && (r.Ok? <==> o.kind != Untyped)
      && (r.Ok? ==>
            && r.value.scan == orders.scan
            && r.value.rows == orders.rows[k := o.WithStatus(NextStatus(EffectiveStatus(o), o.TypeName()), now)]
            && NextStatus(EffectiveStatus(o), o.TypeName()) in Keys(ServiceOrderStatuses))
  {
    if orderId == "" then Err(MissingId)
    else match First(orders, ByIdField(orderId))
      case None => Err(OrderNotFound)
      case Some(k) =>
        var o := orders.rows[k];
        if o.TypeName() != "store" && o.TypeName() != "pickup" then Err(NotServiceOrder)
        else
          var next := NextStatus(EffectiveStatus(o), o.TypeName());
          ServiceNextListed(EffectiveStatus(o), o.TypeName());
          var r := Put(orders, k, o.WithStatus(next, now));
          assert r.rows[k] == o.WithStatus(next, now);
          Ok(r)
  }

  /** Outside watch purchases, the next status is a key of the service list. */
  lemma ServiceNextListed(status: string, orderType: string)
    requires orderType != "purchase"
    ensures NextStatus(status, orderType) in Keys(ServiceOrderStatuses)
  {
  }

  /** `viewOrder(orderId)`: the document key it displays, trying the key
      itself, then the `orderNumber` field, then the `id` field. */
  function ViewOrder(orders: Table<Order>, orderId: string): (r: Option<string>)
    ensures r.Some? ==> r.value in orders.rows
    ensures orderId in orders.rows ==> r == Some(orderId)
    ensures orderId !in orders.rows && r.Some? ==>
      HasOrderNumber(orders.rows[r.value], orderId) || HasIdField(orders.rows[r.value], orderId)
    ensures orderId !in orders.rows && WellFormed(orders)
            && (exists k :: k in orders.rows && HasOrderNumber(orders.rows[k], orderId)) ==>
      r.Some? && HasOrderNumber(orders.rows[r.value], orderId)
    ensures r.None? && WellFormed(orders) ==>
      orderId !in orders.rows
      && forall k :: k in orders.rows ==>
           !HasOrderNumber(orders.rows[k], orderId) && !HasIdField(orders.rows[k], orderId)
  {
    if orderId in orders.rows then Some(orderId)
    else match First(orders, o => HasOrderNumber(o, orderId))
      case Some(k) => Some(k)
      case None => First(orders, o => HasIdField(o, orderId))
  }

  /** The identifier the orders table shows for an order leads `viewOrder`
      back to that very order, provided no document key collides with it
      and order numbers and `id` fields are unique. */
  lemma ViewOrderFindsDisplayId(orders: Table<Order>, key: string)
    requires WellFormed(orders) && key in orders.rows
    requires DisplayId(key, orders.rows[key]) != key ==> DisplayId(key, orders.rows[key]) !in orders.rows
    requires forall k :: k in orders.rows && k != key ==>
      !HasOrderNumber(orders.rows[k], DisplayId(key, orders.rows[key]))
      && !HasIdField(orders.rows[k], DisplayId(key, orders.rows[key]))
    ensures ViewOrder(orders, DisplayId(key, orders.rows[key])) == Some(key)
  {
    var o := orders.rows[key];
    var d := DisplayId(key, o);
    if d != key {
      assert HasOrderNumber(o, d) || HasIdField(o, d);
    }
  }
}
