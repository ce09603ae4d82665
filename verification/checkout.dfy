/** The checkout page: the address form's validation, the card field
    formatters and the card guard in front of the review step, the step
    indicator, and placing the order — recording it, drawing the stock
    down, and emptying the shopper's cart. */
module Checkout {
  import opened Common
  import opened Records
  import Admin
  import Workflow

  /* ---------------------------------------------------------------------
     Address form
     --------------------------------------------------------------------- */

  /** `/^[6-9]\d{9}$/`: an Indian mobile number. */
  predicate PhoneOk(s: string) {
    |s| == 10 && '6' <= s[0] <= '9' && forall i :: 0 <= i < |s| ==> IsDigit(s[i])
  }

  /** `/^\d{6}$/`: a postal index number. */
  predicate PincodeOk(s: string) {
    |s| == 6 && forall i :: 0 <= i < |s| ==> IsDigit(s[i])
  }

  /** `field.value.trim()` is not empty. */
  predicate Filled(s: string) { Trim(s) != "" }

  /** `validateAddressForm`: the six required fields must not be blank
      once trimmed, and a non-empty phone or pincode must match its
      pattern as typed. */
  function ValidateAddressForm(a: Address): (ok: bool) {
    && Filled(a.fullName) && Filled(a.phone) && Filled(a.address)
    && Filled(a.city) && Filled(a.state) && Filled(a.pincode)
    && (a.phone == "" || PhoneOk(a.phone))
    && (a.pincode == "" || PincodeOk(a.pincode))
  }

  /** The form passes exactly when no required field is blank and phone and
      pincode match their patterns: the emptiness guards in front of the
      two patterns never let an empty value through. */
  lemma ValidateAddressFormSpec(a: Address)
    ensures ValidateAddressForm(a) <==>
      && !IsBlank(a.fullName) && !IsBlank(a.address) && !IsBlank(a.city) && !IsBlank(a.state)
      && PhoneOk(a.phone) && PincodeOk(a.pincode)
  {
    FilledIffNotBlank(a.fullName);
    FilledIffNotBlank(a.phone);
    FilledIffNotBlank(a.address);
    FilledIffNotBlank(a.city);
    FilledIffNotBlank(a.state);
    FilledIffNotBlank(a.pincode);
  }

  lemma FilledIffNotBlank(s: string)
    ensures Filled(s) <==> !IsBlank(s)
    ensures PhoneOk(s) || PincodeOk(s) ==> Filled(s)
  {
    TrimEmptyIffBlank(s);
    if PhoneOk(s) || PincodeOk(s) {
      assert !IsSpace(s[0]);
    }
  }

  /* ---------------------------------------------------------------------
     Card fields
     --------------------------------------------------------------------- */

  /** `value.match(/.{1,4}/g)?.join(' ') || value`: blocks of four joined by
      single spaces. */
  function Group4(d: string): (r: string)
    decreases |d|
  {
    if |d| <= 4 then d else d[..4] + " " + Group4(d[4..])
  }

  /** The card-number formatter: digits only, grouped in fours. */
  function FormatCardNumber(s: string): string {
    Group4(DigitsOnly(StripSpaces(s)))
  }

  ghost predicate AllDigits(s: string) { forall i :: 0 <= i < |s| ==> IsDigit(s[i]) }

  /** A grouped run of digits: a space at every fifth position and a digit
      everywhere else, never ending in a space. */
  lemma {:induction false} Group4Shape(d: string)
    requires AllDigits(d)
    ensures var r := Group4(d);
            (|d| == 0 ==> r == "")
            && (|d| > 0 ==> |r| == |d| + (|d| - 1) / 4 && IsDigit(r[|r| - 1]))
            && (forall i :: 0 <= i < |r| ==> (r[i] == ' ' <==> i % 5 == 4))
            && (forall i :: 0 <= i < |r| && i % 5 != 4 ==> IsDigit(r[i]))
    decreases |d|
  {
    if |d| > 4 {
      var rest := Group4(d[4..]);
      Group4Shape(d[4..]);
      var r := d[..4] + " " + rest;
      forall i | 0 <= i < |r| ensures (r[i] == ' ' <==> i % 5 == 4) && (i % 5 != 4 ==> IsDigit(r[i])) {
        if i < 4 {
          assert r[i] == d[i];
        } else if i > 4 {
          assert r[i] == rest[i - 5];
          assert (i - 5) % 5 == 4 <==> i % 5 == 4;
        }
      }
      assert r[|r| - 1] == rest[|rest| - 1];
    }
  }

  /** Grouping loses no digit and adds none. */
  lemma {:induction false} Group4RoundTrip(d: string)
    requires AllDigits(d)
    ensures DigitsOnly(Group4(d)) == d
    ensures StripSpaces(Group4(d)) == d
    decreases |d|
  {
    if |d| <= 4 {
      DigitsOnlyOfDigits(d);
      StripSpacesOfDigits(d);
    } else {
      var head := d[..4];
      var rest := Group4(d[4..]);
      Group4RoundTrip(d[4..]);
      DigitsOnlyOfDigits(head);
      StripSpacesOfDigits(head);
      DigitsOnlyAppend(head + " ", rest);
      DigitsOnlyAppend(head, " ");
      StripSpacesAppend(head + " ", rest);
      StripSpacesAppend(head, " ");
      assert DigitsOnly(" ") == "" && StripSpaces(" ") == "" by {
        assert " "[1..] == "";
      }
      assert head + " " + rest == (head + " ") + rest;
      assert d == head + d[4..];
    }
  }

  /** The formatted number holds exactly the digits that were typed. */
  lemma CardNumberKeepsDigits(s: string)
    ensures DigitsOnly(FormatCardNumber(s)) == DigitsOnly(s)
    ensures StripSpaces(FormatCardNumber(s)) == DigitsOnly(s)
  {
    DigitsOnlyOfStripSpaces(s);
    Group4RoundTrip(DigitsOnly(StripSpaces(s)));
  }

  /** Formatting an already formatted number changes nothing. */
  lemma CardNumberIdempotent(s: string)
    ensures FormatCardNumber(FormatCardNumber(s)) == FormatCardNumber(s)
  {
    var f := FormatCardNumber(s);
    CardNumberKeepsDigits(s);
    CardNumberKeepsDigits(f);
    DigitsOnlyOfStripSpaces(f);
    DigitsOnlyIdempotent(s);
    DigitsOnlyOfStripSpaces(s);
  }

  /** The expiry formatter: digits only, and from two digits on the first
      two, a slash, and at most the next two. */
  function FormatExpiry(s: string): (r: string) {
    var v := DigitsOnly(s);
    if |v| >= 2 then v[..2] + "/" + v[2..Min(4, |v|)] else v
  }

  /** The result is at most `MM/YY`, and holds the first four digits typed. */
  lemma ExpiryShape(s: string)
    ensures |FormatExpiry(s)| <= 5
    ensures var v := DigitsOnly(s);
            DigitsOnly(FormatExpiry(s)) == v[..Min(4, |v|)]
            && (|v| >= 2 ==> FormatExpiry(s)[2] == '/')
  {
    var v := DigitsOnly(s);
    if |v| >= 2 {
      ExpiryShapeLong(s);
    } else {
      DigitsOnlyIdempotent(s);
    }
  }

  lemma ExpiryShapeLong(s: string)
    requires |DigitsOnly(s)| >= 2
    ensures |FormatExpiry(s)| <= 5
    ensures var v := DigitsOnly(s);
            DigitsOnly(FormatExpiry(s)) == v[..Min(4, |v|)] && FormatExpiry(s)[2] == '/'
  {
    var v := DigitsOnly(s);
    {
      var a, b := v[..2], v[2..Min(4, |v|)];
      DigitsOnlyAppend(a + "/", b);
      DigitsOnlyAppend(a, "/");
      DigitsOnlyOfDigits(a);
      DigitsOnlyOfDigits(b);
      assert DigitsOnly("/") == "" by {
        assert "/"[1..] == "";
      }
      assert a + b == v[..Min(4, |v|)];
    }
  }

  /** Formatting an already formatted expiry changes nothing. */
  lemma ExpiryIdempotent(s: string)
    ensures FormatExpiry(FormatExpiry(s)) == FormatExpiry(s)
  {
    ExpiryShape(s);
    var v := DigitsOnly(s);
    var w := v[..Min(4, |v|)];
    assert w[..Min(2, |w|)] == v[..Min(2, |v|)];
    if |v| >= 2 {
      assert w[2..Min(4, |w|)] == v[2..Min(4, |v|)];
    } else {
      DigitsOnlyIdempotent(s);
    }
  }

  /** The CVV formatter: digits only. */
  function FormatCvv(s: string): string {
    DigitsOnly(s)
  }

  /** Formatting an already formatted CVV changes nothing, and keeps no
      character but a digit. */
  lemma CvvIdempotent(s: string)
    ensures FormatCvv(FormatCvv(s)) == FormatCvv(s)
    ensures forall i :: 0 <= i < |FormatCvv(s)| ==> IsDigit(FormatCvv(s)[i])
  {
    DigitsOnlyIdempotent(s);
  }

  /* ---------------------------------------------------------------------
     Continue to review
     --------------------------------------------------------------------- */

  /** The card fields as typed. */
  datatype CardForm = CardForm(number: string, name: string, expiry: string, cvv: string)

  datatype ReviewOutcome = NoPaymentMethod | CardIncomplete | ToReview

  /** The "continue to review" guard. `payment` is "" when none is chosen. */
  function ContinueToReview(payment: string, card: CardForm): (r: ReviewOutcome)
    ensures r == NoPaymentMethod <==> payment == ""
    ensures r == CardIncomplete <==>
      payment == "card"
      && (|StripSpaces(card.number)| < 13 || IsBlank(card.name) || card.expiry == "" || card.cvv == "")
    ensures payment != "" && payment != "card" ==> r == ToReview
  {
    TrimEmptyIffBlank(card.name);
    if payment == "" then NoPaymentMethod
    else if payment == "card" then
      var number := StripSpaces(card.number);
      if number == "" || |number| < 13 || Trim(card.name) == "" || card.expiry == "" || card.cvv == ""
      then CardIncomplete
      else ToReview
    else ToReview
  }

  /** A number typed through the formatter passes the length test exactly
      when at least thirteen digits were typed. */
  lemma FormattedCardLength(s: string)
    ensures |StripSpaces(FormatCardNumber(s))| >= 13 <==> |DigitsOnly(s)| >= 13
  {
    CardNumberKeepsDigits(s);
  }

  /* ---------------------------------------------------------------------
     Step indicator
     --------------------------------------------------------------------- */

  datatype StepState = Completed | Active | Upcoming

  /** `updateStepProgress(current)` for step number `stepNum`. */
  function StepProgress(stepNum: int, current: int): (s: StepState)
    ensures s == Completed <==> stepNum < current
    ensures s == Active <==> stepNum == current
    ensures s == Upcoming <==> stepNum > current
  {
    if stepNum < current then Completed
    else if stepNum == current then Active
    else Upcoming
  }

  /** The states of the `count` steps, numbered from 1. */
  function Progress(count: nat, current: int): (r: seq<StepState>)
    ensures |r| == count
  {
    seq(count, i => StepProgress(i + 1, current))
  }

  function CountState(ss: seq<StepState>, s: StepState): nat {
    if |ss| == 0 then 0 else (if ss[0] == s then 1 else 0) + CountState(ss[1..], s)
  }

  /** On step `current` of `count`, the `current - 1` steps before it are
      completed and exactly one is active. */
  lemma {:induction false} ProgressCounts(count: nat, current: int)
    requires 1 <= current <= count
    ensures CountState(Progress(count, current), Completed) == current - 1
    ensures CountState(Progress(count, current), Active) == 1
    decreases count
  {
    var p := Progress(count, current);
    assert p == Progress(count - 1, current) + [StepProgress(count, current)];
    CountStateSnoc(Progress(count - 1, current), StepProgress(count, current));
    if current < count {
      ProgressCounts(count - 1, current);
    } else {
      ProgressBefore(count - 1, current);
    }
  }

  lemma {:induction false} ProgressBefore(count: nat, current: int)
    requires count < current
    ensures CountState(Progress(count, current), Completed) == count
    ensures CountState(Progress(count, current), Active) == 0
    decreases count
  {
    if count > 0 {
      assert Progress(count, current) == Progress(count - 1, current) + [StepProgress(count, current)];
      CountStateSnoc(Progress(count - 1, current), StepProgress(count, current));
      ProgressBefore(count - 1, current);
    }
  }

  lemma {:induction false} CountStateSnoc(ss: seq<StepState>, x: StepState)
    ensures forall s :: CountState(ss + [x], s) == CountState(ss, s) + (if x == s then 1 else 0)
  {
    if |ss| > 0 {
      assert (ss + [x])[1..] == ss[1..] + [x];
      CountStateSnoc(ss[1..], x);
    } else {
      assert forall s :: CountState([x], s) == (if x == s then 1 else 0) by {
        assert [x][1..] == [];
      }
    }
  }

  /* ---------------------------------------------------------------------
     Placing the order
     --------------------------------------------------------------------- */

  /** The order record `placeOrder` writes, at clock value `now`. */
  function BuildOrder(user: User, address: Address, paymentMethod: string, items: seq<OrderItem>, now: nat): (o: Order)
    ensures o.Purchase? && o.TypeName() == "purchase" && o.status == "pending"
    ensures o.items == items && o.shippingAddress == address && o.paymentMethod == paymentMethod
    ensures o.userId == user.uid && o.customerName == address.fullName && o.customerEmail == user.email
    ensures o.subtotal == Some(ItemsSubtotal(items))
    ensures o.tax == Some(ItemsSubtotal(items) * 18.0 / 100.0)
    ensures o.totalAmount == Some(ItemsSubtotal(items) * 118.0 / 100.0)
    ensures o.paymentStatus == "pending" <==> paymentMethod == "cod"
    ensures o.paymentStatus == "paid" <==> paymentMethod != "cod"
    ensures StartsWith(o.orderNumber, "ORD-") && o.orderNumber[4..] == NatToString(now)
    ensures o.timestamp == now && o.updatedAt.None?
  {
    var subtotal := ItemsSubtotal(items);
    var number := "ORD-" + NatToString(now);
    assert number[..4] == "ORD-" && number[4..] == NatToString(now);
    Purchase(user.uid, address.fullName, user.email, "pending", now, None, number,
             items, Some(subtotal), Some(Tax(subtotal)), Some(subtotal + Tax(subtotal)),
             paymentMethod, if paymentMethod == "cod" then "pending" else "paid", address)
  }

  /** The dashboard reads a placed order back as a purchase, under its
      order number, totalling its subtotal plus tax, at the first step of
      the watch workflow. */
  lemma PlacedOrderOnDashboard(user: User, address: Address, paymentMethod: string, items: seq<OrderItem>, now: nat, key: string)
    ensures var o := BuildOrder(user, address, paymentMethod, items, now);
            && Admin.OrderTotal(o) == ItemsSubtotal(items) + Tax(ItemsSubtotal(items))
            && Admin.DetectOrderTypeById(Some(o.orderNumber)) == Some("purchase")
            && Admin.DisplayId(key, o) == o.orderNumber
            && Admin.EffectiveStatus(o) == "pending"
  {
  }

  /** A placed order whose number no earlier order carries is found by
      the dashboard's watch-order update under that number, and one click
      confirms it. */
  lemma PlacedOrderConfirmedByNumber(db: Db, user: User, address: Address, paymentMethod: string,
                                     items: seq<OrderItem>, now: nat, key: string, later: int)
    requires key !in db.orders.rows && paymentMethod != "" && WellFormed(db.orders)
    requires forall k :: k in db.orders.rows ==> !HasOrderNumber(db.orders.rows[k], "ORD-" + NatToString(now))
    ensures var orders := PlaceOrder(db, user, Some(address), paymentMethod, items, now, key).value.orders;
            var o := BuildOrder(user, address, paymentMethod, items, now);
            && Admin.ResolveWatchOrder(orders, o.orderNumber) == Ok(key)
            && Admin.UpdateWatchOrderStatus(orders, o.orderNumber, later).Ok?
            && Admin.UpdateWatchOrderStatus(orders, o.orderNumber, later).value.rows[key].status == "confirmed"
  {
    var o := BuildOrder(user, address, paymentMethod, items, now);
    assert PlaceOrder(db, user, Some(address), paymentMethod, items, now, key).value.orders == Put(db.orders, key, o);
    NewPendingOrderConfirmed(db.orders, key, o, later);
  }

  lemma NewPendingOrderConfirmed(orders: Table<Order>, key: string, o: Order, later: int)
    requires key !in orders.rows && WellFormed(orders)
    requires o.Purchase? && StartsWith(o.orderNumber, "ORD-") && o.status == "pending"
    requires forall k :: k in orders.rows ==> !HasOrderNumber(orders.rows[k], o.orderNumber)
    ensures Admin.ResolveWatchOrder(Put(orders, key, o), o.orderNumber) == Ok(key)
    ensures Admin.UpdateWatchOrderStatus(Put(orders, key, o), o.orderNumber, later).Ok?
    ensures Admin.UpdateWatchOrderStatus(Put(orders, key, o), o.orderNumber, later).value.rows[key].status == "confirmed"
  {
    FirstOfPutFresh(orders, ByOrderNumber(o.orderNumber), key, o);
    Workflow.NextStatusOfListed(0, "purchase");
  }

  /** `stock || 0` less the quantity, floored at zero. */
  function DecrementOne(watches: Table<Product>, item: OrderItem): (r: Table<Product>)
    ensures r.scan == watches.scan && r.rows.Keys == watches.rows.Keys
    ensures forall k :: k in watches.rows && k != item.watchId ==> r.rows[k] == watches.rows[k]
    ensures item.watchId in watches.rows ==>
      r.rows[item.watchId] == watches.rows[item.watchId].(stock := Max(0, watches.rows[item.watchId].stock - item.quantity))
  {
    if item.watchId in watches.rows then
      var p := watches.rows[item.watchId];
      Put(watches, item.watchId, p.(stock := Max(0, p.stock - item.quantity)))
    else watches
  }

  /** `updateStockQuantities(items)`, one item after another. */
  function UpdateStockQuantities(watches: Table<Product>, items: seq<OrderItem>): (r: Table<Product>)
    ensures r.scan == watches.scan && r.rows.Keys == watches.rows.Keys
    decreases |items|
  {
    if |items| == 0 then watches else UpdateStockQuantities(DecrementOne(watches, items[0]), items[1..])
  }

  /** The quantity the items order of product `id`. */
  function QuantityOf(items: seq<OrderItem>, id: string): nat {
    if |items| == 0 then 0
    else (if items[0].watchId == id then items[0].quantity else 0) + QuantityOf(items[1..], id)
  }

  /** Whether some item orders product `id`. */
  predicate Orders(items: seq<OrderItem>, id: string) {
    exists i :: 0 <= i < |items| && items[i].watchId == id
  }

  lemma {:induction false} QuantityOfUnordered(items: seq<OrderItem>, id: string)
    requires !Orders(items, id)
    ensures QuantityOf(items, id) == 0
  {
    if |items| > 0 {
      assert items[0].watchId != id;
      QuantityOfUnordered(items[1..], id);
    }
  }

  /** Drawing the stock down item by item comes to one floored subtraction
      of the whole quantity ordered; products not ordered, and everything
      but the stock of those ordered, stay as they were. */
  lemma {:induction false} StockDecrementTotal(watches: Table<Product>, items: seq<OrderItem>, id: string)
    requires id in watches.rows
    ensures var after := UpdateStockQuantities(watches, items).rows[id];
            var before := watches.rows[id];
            after == before.(stock := if Orders(items, id) then Max(0, before.stock - QuantityOf(items, id)) else before.stock)
    decreases |items|
  {
    if |items| > 0 {
      var mid := DecrementOne(watches, items[0]);
      StockDecrementTotal(mid, items[1..], id);
      OrdersCons(items, id);
      var before := watches.rows[id];
      var q, rest := items[0].quantity, QuantityOf(items[1..], id);
      if items[0].watchId == id {
        assert QuantityOf(items, id) == q + rest;
        if !Orders(items[1..], id) {
          QuantityOfUnordered(items[1..], id);
        }
        MaxTwice(before.stock, q, rest);
      } else {
        assert QuantityOf(items, id) == rest;
        assert mid.rows[id] == before;
      }
    } else {
      assert !Orders(items, id);
    }
  }

  lemma OrdersCons(items: seq<OrderItem>, id: string)
    requires |items| > 0
    ensures Orders(items, id) <==> items[0].watchId == id || Orders(items[1..], id)
  {
    if Orders(items, id) && items[0].watchId != id {
      var i :| 0 <= i < |items| && items[i].watchId == id;
      assert items[1..][i - 1] == items[i];
    }
    if Orders(items[1..], id) {
      var i :| 0 <= i < |items| - 1 && items[1..][i].watchId == id;
      assert items[i + 1] == items[1..][i];
    }
  }

  /** Two clamped decrements are one clamped decrement of the sum. */
  lemma MaxTwice(stock: int, q: nat, rest: nat)
    ensures Max(0, Max(0, stock - q) - rest) == Max(0, stock - (q + rest))
  {
  }

  /** A product an order draws on never ends with negative stock. */
  lemma StockNeverNegative(watches: Table<Product>, items: seq<OrderItem>, id: string)
    requires id in watches.rows && Orders(items, id)
    ensures UpdateStockQuantities(watches, items).rows[id].stock >= 0
  {
    StockDecrementTotal(watches, items, id);
  }

  datatype PlaceFailure = StepsIncomplete

  /** The "place order" button: the order is added under the fresh key
      `key`, then each ordered product's stock is drawn down, then every
      cart line of the shopper is deleted. */
  function PlaceOrder(db: Db, user: User, address: Option<Address>, paymentMethod: string,
                      items: seq<OrderItem>, now: nat, key: string): (r: Result<Db, PlaceFailure>)
    requires key !in db.orders.rows
    ensures r.Ok? <==> address.Some? && paymentMethod != ""
    ensures r.Ok? ==> r.value.orders.rows == db.orders.rows[key := BuildOrder(user, address.value, paymentMethod, items, now)]
    ensures r.Ok? ==> r.value.watches == UpdateStockQuantities(db.watches, items)
    ensures r.Ok? ==> r.value.addresses == db.addresses
    ensures r.Ok? && WellFormed(db.cart) ==>
      forall k :: k in r.value.cart.rows <==> k in db.cart.rows && db.cart.rows[k].userId != user.uid
    ensures r.Ok? ==> forall k :: k in r.value.cart.rows ==> k in db.cart.rows && r.value.cart.rows[k] == db.cart.rows[k]
    ensures r.Ok? ==> r.value.cart.scan == db.cart.scan
    ensures r.Ok? && key !in db.orders.scan ==> r.value.orders.scan == db.orders.scan + [key]
  {
    if address.None? || paymentMethod == "" then Err(StepsIncomplete)
    else
      var order := BuildOrder(user, address.value, paymentMethod, items, now);
      Ok(Db(UpdateStockQuantities(db.watches, items),
            DeleteWhere(db.cart, (l: CartLine) => l.userId == user.uid),
            Put(db.orders, key, order),
            db.addresses))
  }
}
